/** Container ports and Service ports are computed by different routes: the container's
    from the merged, printed and re-parsed arguments, the Service's from the raw ones. */
module Agreement {
  import opened Text
  import opened Flags
  import opened Arguments
  import opened Ports
  import opened HMeta

  // ---------- the default arguments and ports ----------

  /** A default argument list, given as pairs. */
  type Entry = (string, string)

  function HStoreDefaults(nShard: int): seq<Entry> {
    [("--config-path", "/etc/logdevice/config.json"), ("--address", "$(POD_IP)"), ("--name", "$(POD_NAME)"),
     ("--local-log-store-path", "/data/logdevice"), ("--num-shards", Itoa(nShard))]
  }

  const ADMIN_SERVER_DEFAULTS: seq<Entry> :=
    [("--config-path", "/etc/logdevice/config.json"), ("--enable-maintenance-manager", ""),
     ("--maintenance-log-snapshotting", ""), ("--enable-safety-check-periodic-metadata-update", "")]

  function HMetaDefaults(hdb: Instance, replicas: int): seq<Entry> {
    [("--disco-mode", "dns"), ("--join-interval", "1s"), ("--join-attempts", "120"),
     ("--bootstrap-expect", Itoa(replicas)), ("--disco-config", "{\"name\":\"" + HeadlessName(hdb, "hmeta") + "\"}")]
  }

  const HSTORE_PORTS: seq<Port> := [Port("port", 4440, "TCP"), Port("gossip-port", 4441, "TCP"), Port("admin-port", 6440, "TCP")]
  const ADMIN_SERVER_PORTS: seq<Port> := [Port("admin-port", 6440, "")]

  ghost predicate GoodDefaults(defaults: seq<Entry>) {
    forall e :: e in defaults ==> IsKey(e.0) && Plain(e.1)
  }

  lemma ParsedDefaults(defaults: seq<Entry>)
    requires GoodDefaults(defaults)
    ensures Parse(Pairs(defaults)) == Scan(Put(map[], defaults), [], "", Exhausted)
  {
    RunPairs(map[], defaults, []);
    assert Pairs(defaults) + [] == Pairs(defaults);
  }

  /** Every flag a pair list yields is one of the listed flags, with a listed value. */
  lemma {:induction false} PutFrom(flags: map<string, string>, entries: seq<Entry>)
    ensures forall k :: k in Put(flags, entries) ==> k in flags || exists e :: e in entries && e.0 == k
    ensures forall e :: e in entries ==> e.0 in Put(flags, entries)
    ensures (forall k :: k in flags ==> Plain(flags[k])) && GoodDefaults(entries) ==> AllPlain(Put(flags, entries))
    ensures forall k :: k in flags ==> k in Put(flags, entries)
    decreases |entries|
  {
    if entries != [] {
      assert entries[0] in entries;
      PutFrom(flags[entries[0].0 := entries[0].1], entries[1..]);
    }
  }

  // ---------- the two routes ----------

  /** The container's arguments: none when the user's are rejected. */
  ghost function ContainerArgs(args: seq<string>, defaults: seq<Entry>): Result<seq<string>> {
    match Extended(args, Pairs(defaults))
    case Ok(a) => Ok(a)
    case Err => Ok([])
    case Panic => Panic
  }

  // ---------- what reaches the container ----------

  /** No user flag has this name. */
  ghost predicate Unnamed(user: map<string, string>, name: string) {
    forall f :: f in user ==> NameOf(f) != name
  }

  lemma {:induction false} PutHolds(flags: map<string, string>, entries: seq<Entry>, e: Entry)
    requires e in entries && forall x :: x in entries && x.0 == e.0 ==> x == e
    ensures e.0 in Put(flags, entries) && Put(flags, entries)[e.0] == e.1
    decreases |entries|
  {
    var rest, next := entries[1..], flags[entries[0].0 := entries[0].1];
    assert entries == [entries[0]] + rest;
    if e in rest {
      PutHolds(next, rest, e);
    } else {
      PutElsewhere(next, rest, e.0);
    }
  }

  lemma {:induction false} PutElsewhere(flags: map<string, string>, entries: seq<Entry>, k: string)
    requires k in flags && forall x :: x in entries ==> x.0 != k
    ensures k in Put(flags, entries) && Put(flags, entries)[k] == flags[k]
    decreases |entries|
  {
    if entries != [] {
      assert entries[0] in entries;
      PutElsewhere(flags[entries[0].0 := entries[0].1], entries[1..], k);
    }
  }

  /** A default whose name the user did not give is passed on, flag and value next to each other. */
  lemma DefaultPassed(args: seq<string>, defaults: seq<Entry>, e: Entry)
    requires Parse(args).Accepted() && GoodDefaults(defaults)
    requires e in defaults && (forall x :: x in defaults && x.0 == e.0 ==> x == e)
    requires Unnamed(Parse(args).flags, TrimDashes(e.0))
    ensures ContainerArgs(args, defaults).Ok? && PassesOn(ContainerArgs(args, defaults).value, e.0, e.1)
  {
    hide Run, Print;
    var u, d := Parse(args).flags, Put(map[], defaults);
    ContainerArgsOfAccepted(args, defaults);
    PutHolds(map[], defaults, e);
    MergeHolds(u, d, e.0);
    if e.0 in u { assert NameOf(e.0) != TrimDashes(e.0); assert e.0 == "-p"; ShortIsPlain(e.0); }
    PrintPasses(Merge(u, d), e.0);
  }

  lemma ShortIsPlain(flag: string)
    requires flag == "-p"
    ensures TrimDashes(flag) == "p"
  {
    assert "-p"[1..] == "p";
  }

  /** What the user gave is passed on, unless a default `-p` takes its place. */
  lemma UserPassed(args: seq<string>, defaults: seq<Entry>, f: string)
    requires Parse(args).Accepted() && GoodDefaults(defaults) && f in Parse(args).flags
    requires f == "-p" ==> "-p" !in Put(map[], defaults)
    ensures ContainerArgs(args, defaults).Ok? && PassesOn(ContainerArgs(args, defaults).value, f, Parse(args).flags[f])
  {
    hide Run, Print;
    var u, d := Parse(args).flags, Put(map[], defaults);
    ContainerArgsOfAccepted(args, defaults);
    MergeHolds(u, d, f);
    if f != "-p" { assert NameOf(f) in Names(u); }
    assert Merge(u, d)[f] == u[f];
    PrintPasses(Merge(u, d), f);
  }

  ghost function WorkloadPorts(args: seq<string>, ports: seq<Port>, defaults: seq<Entry>, defaultPorts: seq<Port>): Result<seq<Port>> {
    match ContainerArgs(args, defaults)
    case Ok(a) => Covered(a, ExtendWith(ports, defaultPorts))
    case r => Panic
  }

  /** `getPorts`. */
  function ServicePortsOf(args: seq<string>, ports: seq<Port>, defaultPorts: seq<Port>): Result<seq<ServicePort>> {
    match Covered(args, ExtendWith(ports, defaultPorts))
    case Ok(p) => Ok(ToService(p))
    case r => Panic
  }

  ghost predicate Agree(workload: Result<seq<Port>>, service: Result<seq<ServicePort>>) {
    workload.Ok? && service.Ok? && ToService(workload.value) == service.value
  }

  /** The number a port ends up with under the given flags. */
  function NumberOf(flags: map<string, string>, p: Port): int { CoverOne(flags, p).containerPort }

  lemma SameCover(f: map<string, string>, g: map<string, string>, ports: seq<Port>)
    ensures Cover(f, ports) == Cover(g, ports) <==> forall p :: p in ports ==> NumberOf(f, p) == NumberOf(g, p)
  {
    if Cover(f, ports) == Cover(g, ports) {
      forall p | p in ports ensures NumberOf(f, p) == NumberOf(g, p) {
        var i :| 0 <= i < |ports| && ports[i] == p;
        assert Cover(f, ports)[i] == Cover(g, ports)[i];
      }
    } else {
      var i :| 0 <= i < |ports| && Cover(f, ports)[i] != Cover(g, ports)[i];
      assert ports[i] in ports && NumberOf(f, ports[i]) != NumberOf(g, ports[i]);
    }
  }

  /** A list of pairs with well-shaped flags never makes the parser panic, whatever the values. */
  lemma {:induction false} PairsNeverPanic(flags: map<string, string>, entries: seq<Entry>)
    requires Keyed(flags) && forall e :: e in entries ==> IsKey(e.0)
    ensures Run(flags, "", Pairs(entries)).status in {Exhausted, Rejected}
    decreases |entries|
  {
    if entries != [] {
      assert entries[0] in entries;
      PairRead(flags, entries[0].0, entries[0].1, Pairs(entries[1..]));
      if Plain(entries[0].1) { PairsNeverPanic(flags[entries[0].0 := entries[0].1], entries[1..]); }
    }
  }

  /** The container's arguments fail to be built only by a panic on the user's own, and then parse without one. */
  lemma ContainerArgsNeverPanic(args: seq<string>, defaults: seq<Entry>)
    requires forall e :: e in defaults ==> IsKey(e.0)
    ensures ContainerArgs(args, defaults).Panic? <==> Parse(args).status == Panicked
    ensures ContainerArgs(args, defaults).Ok? ==> Parse(ContainerArgs(args, defaults).value).status != Panicked
    ensures !ContainerArgs(args, defaults).Err?
  {
    PairsNeverPanic(map[], defaults);
    if Parse(args).Accepted() {
      MergedIsKeyed(args, Pairs(defaults));
      RoundTrip(MergedFlags(args, Pairs(defaults)).value);
    }
  }

  /** Both routes panic together, and only on the user's own arguments. */
  lemma PanicTogether(args: seq<string>, ports: seq<Port>, defaults: seq<Entry>, defaultPorts: seq<Port>)
    requires forall e :: e in defaults ==> IsKey(e.0)
    ensures WorkloadPorts(args, ports, defaults, defaultPorts).Panic? <==> Parse(args).status == Panicked
    ensures ServicePortsOf(args, ports, defaultPorts).Panic? <==> Parse(args).status == Panicked
  {
    ContainerArgsNeverPanic(args, defaults);
  }

  lemma ContainerArgsOfAccepted(args: seq<string>, defaults: seq<Entry>)
    requires Parse(args).Accepted() && GoodDefaults(defaults)
    ensures var m := Merge(Parse(args).flags, Put(map[], defaults));
            Keyed(m) && MergedFlags(args, Pairs(defaults)) == Ok(m) && ContainerArgs(args, defaults) == Ok(Print(m))
  {
    ParsedDefaults(defaults);
    MergedIsKeyed(args, Pairs(defaults));
  }

  /** For every accepted argument list: what the container covers its ports with. */
  lemma WorkloadReadsBack(args: seq<string>, ports: seq<Port>, defaults: seq<Entry>, defaultPorts: seq<Port>)
    requires Parse(args).Accepted() && GoodDefaults(defaults)
    ensures var m := Merge(Parse(args).flags, Put(map[], defaults));
            && MergedFlags(args, Pairs(defaults)) == Ok(m)
            && WorkloadPorts(args, ports, defaults, defaultPorts) == Ok(Cover(ReadBack(m), ExtendWith(ports, defaultPorts)))
  {
    ContainerArgsOfAccepted(args, defaults);
    RoundTrip(Merge(Parse(args).flags, Put(map[], defaults)));
  }

  /** In general, over every accepted list: agreement is agreement of each port's number. */
  lemma PortsAgreeInGeneral(args: seq<string>, ports: seq<Port>, defaults: seq<Entry>, defaultPorts: seq<Port>)
    requires Parse(args).Accepted() && GoodDefaults(defaults)
    ensures var m := Merge(Parse(args).flags, Put(map[], defaults));
            Agree(WorkloadPorts(args, ports, defaults, defaultPorts), ServicePortsOf(args, ports, defaultPorts))
            <==> forall p :: p in ExtendWith(ports, defaultPorts) ==>
                   NumberOf(ReadBack(m), p) == NumberOf(Parse(args).flags, p)
  {
    var all := ExtendWith(ports, defaultPorts);
    var u := Parse(args).flags;
    var m := Merge(u, Put(map[], defaults));
    WorkloadReadsBack(args, ports, defaults, defaultPorts);
    ToServiceInjective(Cover(ReadBack(m), all), Cover(u, all));
    SameCover(ReadBack(m), u, all);
  }

  /** A port the added default flag of the same name renumbers. */
  predicate Shadowed(user: map<string, string>, defaults: map<string, string>, p: Port) {
    var f := "--" + p.name;
    f in defaults && f !in user && TrimDashes(f) !in Names(user) && IntVal(defaults[f]) != p.containerPort
  }

  /** Workload and Service agree, for accepted arguments with plain values,
      exactly when no port is named after an added default flag that renumbers it. */
  lemma PortsAgree(args: seq<string>, ports: seq<Port>, defaults: seq<Entry>, defaultPorts: seq<Port>)
    requires Parse(args).Accepted() && AllPlain(Parse(args).flags) && GoodDefaults(defaults)
    ensures Agree(WorkloadPorts(args, ports, defaults, defaultPorts), ServicePortsOf(args, ports, defaultPorts))
            <==> forall p :: p in ExtendWith(ports, defaultPorts) ==> !Shadowed(Parse(args).flags, Put(map[], defaults), p)
  {
    var u, d := Parse(args).flags, Put(map[], defaults);
    PutFrom(map[], defaults);
    PlainMerge(u, d);
    PortsAgreeInGeneral(args, ports, defaults, defaultPorts);
    forall p | p in ExtendWith(ports, defaultPorts)
      ensures NumberOf(Merge(u, d), p) == NumberOf(u, p) <==> !Shadowed(u, d, p)
    {
      MergedNumber(u, d, p);
    }
  }

  lemma PlainMerge(u: map<string, string>, d: map<string, string>)
    requires AllPlain(u) && AllPlain(d)
    ensures AllPlain(Merge(u, d))
  {
  }

  lemma MergedNumber(u: map<string, string>, d: map<string, string>, p: Port)
    ensures NumberOf(Merge(u, d), p) == NumberOf(u, p) <==> !Shadowed(u, d, p)
  {
    var f := "--" + p.name;
    MergeHolds(u, d, f);
    assert f != "-p" by { assert f[1] == '-'; }
    if f in u { assert NameOf(f) in Names(u); }
  }

  /** When the user's arguments are rejected the container gets none: agreement
      means no flag read before the rejection renumbers a port. */
  lemma PortsAgreeWhenRejected(args: seq<string>, ports: seq<Port>, defaults: seq<Entry>, defaultPorts: seq<Port>)
    requires Parse(args).status == Rejected && GoodDefaults(defaults)
    ensures Agree(WorkloadPorts(args, ports, defaults, defaultPorts), ServicePortsOf(args, ports, defaultPorts))
            <==> forall p :: p in ExtendWith(ports, defaultPorts) ==> Agrees(Parse(args).flags, p)
  {
    var all := ExtendWith(ports, defaultPorts);
    assert Cover(map[], all) == all;
    assert Parse([]).flags == map[];
    assert WorkloadPorts(args, ports, defaults, defaultPorts) == Ok(all);
    ToServiceInjective(all, Cover(Parse(args).flags, all));
    CoverFixed(Parse(args).flags, all);
  }

  // ---------- a negative count among the defaults ----------

  lemma {:induction false} PutLast(flags: map<string, string>, entries: seq<Entry>, e: Entry)
    ensures Put(flags, entries + [e]) == Put(flags, entries)[e.0 := e.1]
    decreases |entries|
  {
    if entries == [] {
      assert entries + [e] == [e] && [e][1..] == [];
    } else {
      assert (entries + [e])[1..] == entries[1..] + [e] && (entries + [e])[0] == entries[0];
      PutLast(flags[entries[0].0 := entries[0].1], entries[1..], e);
    }
  }

  /** A default value that looks like a flag ends the reading of the defaults: they
      count up to its flag, which is left without a value. */
  lemma DefaultsCutShort(args: seq<string>, first: seq<Entry>, k: string, v: string, rest: seq<Entry>)
    requires GoodDefaults(first) && IsKey(k) && !Plain(v)
    ensures GoodDefaults(first + [(k, "")])
    ensures ContainerArgs(args, first + ([(k, v)] + rest)) == ContainerArgs(args, first + [(k, "")])
  {
    hide Run, Print, Merge;
    PairsToBad(first, k, v, rest);
    ParsedDefaults(first + [(k, "")]);
    PutLast(map[], first, (k, ""));
  }

  lemma NegativeNotPlain(n: int)
    requires n < 0
    ensures !Plain(Itoa(n))
  {
  }

  /** The HStore defaults as far as they are read. */
  function HStoreDefaultsRead(nShard: int): seq<Entry> {
    HStoreDefaults(nShard)[..4] + [("--num-shards", if nShard < 0 then "" else Itoa(nShard))]
  }

  lemma HStoreDefaultsAreRead(args: seq<string>, nShard: int)
    requires INT64_MAX >= nShard
    ensures GoodDefaults(HStoreDefaultsRead(nShard))
    ensures ContainerArgs(args, HStoreDefaults(nShard)) == ContainerArgs(args, HStoreDefaultsRead(nShard))
  {
    var es := HStoreDefaults(nShard);
    if nShard < 0 {
      NegativeNotPlain(nShard);
      GoodHStoreDefaults(0);
      assert es[..4] == HStoreDefaults(0)[..4];
      assert es == es[..4] + ([("--num-shards", Itoa(nShard))] + []);
      HStoreKeys();
      DefaultsCutShort(args, es[..4], "--num-shards", Itoa(nShard), []);
    } else {
      GoodHStoreDefaults(nShard);
      assert es == HStoreDefaultsRead(nShard);
    }
  }

  // ---------- HStore and AdminServer ----------

  lemma GoodHStoreDefaults(nShard: int)
    requires INT64_MAX >= nShard >= 0
    ensures GoodDefaults(HStoreDefaults(nShard))
  {
    DigitsDenote(nShard);
    HStoreKeys();
  }

  lemma HStoreKeys()
    ensures IsKey("--config-path") && IsKey("--address") && IsKey("--name")
    ensures IsKey("--local-log-store-path") && IsKey("--num-shards")
  {
  }

  lemma GoodAdminServerDefaults()
    ensures GoodDefaults(ADMIN_SERVER_DEFAULTS)
  {
    LongKeys();
  }

  lemma LongKeys()
    ensures IsKey("--config-path") && IsKey("--enable-maintenance-manager")
    ensures IsKey("--maintenance-log-snapshotting")
    ensures IsKey("--enable-safety-check-periodic-metadata-update")
  {
  }

  /** No port carries the name of a default flag. */
  predicate NoneNamedAfter(ports: seq<Port>, defaults: seq<Entry>) {
    forall p, e :: p in ports && e in defaults ==> "--" + p.name != e.0
  }

  lemma NotNamedAfterAgree(args: seq<string>, ports: seq<Port>, defaults: seq<Entry>, defaultPorts: seq<Port>)
    requires Parse(args).Accepted() && AllPlain(Parse(args).flags) && GoodDefaults(defaults)
    requires NoneNamedAfter(ExtendWith(ports, defaultPorts), defaults)
    ensures Agree(WorkloadPorts(args, ports, defaults, defaultPorts), ServicePortsOf(args, ports, defaultPorts))
  {
    PutFrom(map[], defaults);
    PortsAgree(args, ports, defaults, defaultPorts);
  }

  lemma {:induction false} ExtendFrom(ports: seq<Port>, external: seq<Port>)
    requires forall e :: e in external ==> e.name != ""
    ensures forall p :: p in ExtendWith(ports, external) ==> p in ports || p in external
    decreases |external|
  {
    if external != [] {
      assert external[0] in external;
      ExtendFrom(if Named(ports, external[0].name) then ports else ports + [external[0]], external[1..]);
    }
  }

  /** HStore and AdminServer: the StatefulSet or Deployment and the Service
      agree whenever the user names no port after a default flag. */
  lemma HStoreAndAdminServerAgree(args: seq<string>, ports: seq<Port>, nShard: int)
    requires Parse(args).Accepted() && AllPlain(Parse(args).flags) && nShard <= INT64_MAX
    ensures NoneNamedAfter(ports, HStoreDefaults(nShard)) ==>
              Agree(WorkloadPorts(args, ports, HStoreDefaults(nShard), HSTORE_PORTS), ServicePortsOf(args, ports, HSTORE_PORTS))
    ensures NoneNamedAfter(ports, ADMIN_SERVER_DEFAULTS) ==>
              Agree(WorkloadPorts(args, ports, ADMIN_SERVER_DEFAULTS, ADMIN_SERVER_PORTS), ServicePortsOf(args, ports, ADMIN_SERVER_PORTS))
  {
    HStoreDefaultsAreRead(args, nShard);
    GoodAdminServerDefaults();
    ExtendFrom(ports, HSTORE_PORTS);
    ExtendFrom(ports, ADMIN_SERVER_PORTS);
    OwnPortsNotDefaults(nShard);
    if NoneNamedAfter(ports, HStoreDefaults(nShard)) {
      SameKeys(HStoreDefaults(nShard), HStoreDefaultsRead(nShard), ExtendWith(ports, HSTORE_PORTS));
      NotNamedAfterAgree(args, ports, HStoreDefaultsRead(nShard), HSTORE_PORTS);
    }
    if NoneNamedAfter(ports, ADMIN_SERVER_DEFAULTS) {
      NotNamedAfterAgree(args, ports, ADMIN_SERVER_DEFAULTS, ADMIN_SERVER_PORTS);
    }
  }

  lemma SameKeys(a: seq<Entry>, b: seq<Entry>, ports: seq<Port>)
    requires |a| == |b| && forall i :: 0 <= i < |a| ==> a[i].0 == b[i].0
    requires NoneNamedAfter(ports, a)
    ensures NoneNamedAfter(ports, b)
  {
    forall p, e | p in ports && e in b ensures "--" + p.name != e.0 {
      var i :| 0 <= i < |b| && b[i] == e;
      assert a[i] in a;
    }
  }

  lemma OwnPortsNotDefaults(nShard: int)
    ensures NoneNamedAfter(HSTORE_PORTS, HStoreDefaults(nShard))
    ensures NoneNamedAfter(ADMIN_SERVER_PORTS, ADMIN_SERVER_DEFAULTS)
  {
    assert "--" + "port" == "--port" && "--" + "gossip-port" == "--gossip-port" && "--" + "admin-port" == "--admin-port";
  }

  /** With a port named after a default flag they differ. */
  lemma NamedAfterDefaultDisagrees()
    ensures !Agree(WorkloadPorts([], [Port("name", 80, "TCP")], HStoreDefaults(1), HSTORE_PORTS),
                   ServicePortsOf([], [Port("name", 80, "TCP")], HSTORE_PORTS))
  {
    hide WorkloadPorts, ServicePortsOf, HStoreDefaults, Agree;
    var p := Port("name", 80, "TCP");
    GoodHStoreDefaults(1);
    ExtendKeepsPorts([p], HSTORE_PORTS);
    assert ExtendWith([p], HSTORE_PORTS)[0] == [p][0];
    NameShadowed(p);
    PortsAgree([], [p], HStoreDefaults(1), HSTORE_PORTS);
  }

  lemma NameShadowed(p: Port)
    requires p == Port("name", 80, "TCP")
    ensures Shadowed(map[], Put(map[], HStoreDefaults(1)), p)
  {
    hide Put, HStoreDefaults;
    assert "--" + "name" == "--name";
    NameDefault(1);
    assert IntVal("$(POD_NAME)") == 0 by { assert !IsDigit("$(POD_NAME)"[0]); }
  }

  lemma NameDefault(nShard: int)
    ensures "--name" in Put(map[], HStoreDefaults(nShard)) && Put(map[], HStoreDefaults(nShard))["--name"] == "$(POD_NAME)"
    ensures "--num-shards" in Put(map[], HStoreDefaults(nShard)) && Put(map[], HStoreDefaults(nShard))["--num-shards"] == Itoa(nShard)
  {
    var es := HStoreDefaults(nShard);
    var f1 := map[][es[0].0 := es[0].1];
    var f2 := f1[es[1].0 := es[1].1];
    var f3 := f2[es[2].0 := es[2].1];
    var f4 := f3[es[3].0 := es[3].1];
    var f5 := f4[es[4].0 := es[4].1];
    assert Put(map[], es) == Put(f1, es[1..]);
    assert es[1..][0] == es[1] && Put(f1, es[1..]) == Put(f2, es[1..][1..]) && es[1..][1..] == es[2..];
    assert es[2..][0] == es[2] && Put(f2, es[2..]) == Put(f3, es[2..][1..]) && es[2..][1..] == es[3..];
    assert es[3..][0] == es[3] && Put(f3, es[3..]) == Put(f4, es[3..][1..]) && es[3..][1..] == es[4..];
    assert es[4..][0] == es[4] && Put(f4, es[4..]) == Put(f5, es[4..][1..]) && es[4..][1..] == [];
  }

  // ---------- HMeta ----------

  /** The port `parseHMetaPort` hands back even with an error. */
  function PortOrDefault(r: Result<Port>): Port {
    match r
    case Ok(p) => p
    case _ => DefaultHMetaPort
  }

  ghost function HMetaWorkloadPorts(args: seq<string>, ports: seq<Port>, defaults: seq<Entry>): Result<seq<Port>> {
    match ContainerArgs(args, defaults)
    case Ok(a) =>
      if ParseHMetaPort(a).Panic? then Panic else Ok(ExtendWith(ports, [PortOrDefault(ParseHMetaPort(a))]))
    case r => Panic
  }

  /** The HMeta Service is not built at all when the arguments are rejected. */
  function HMetaServicePorts(args: seq<string>, ports: seq<Port>): Result<seq<ServicePort>> {
    match ParseHMetaPort(args)
    case Ok(p) => Ok(ToService(ExtendWith(ports, [p])))
    case Err => Err
    case Panic => Panic
  }

  lemma GoodHMetaDefaults(hdb: Instance, replicas: int)
    requires INT64_MAX >= replicas >= 0
    ensures GoodDefaults(HMetaDefaults(hdb, replicas))
    ensures "--http-addr" !in Put(map[], HMetaDefaults(hdb, replicas)) && "-p" !in Put(map[], HMetaDefaults(hdb, replicas))
  {
    var es := HMetaDefaults(hdb, replicas);
    DigitsDenote(replicas);
    HMetaKeys();
    assert Plain(es[0].1) && Plain(es[1].1) && Plain(es[2].1) && Plain(es[3].1);
    assert es[4].1[0] == '{';
    NotPut(es, "--http-addr");
    NotPut(es, "-p");
  }

  /** With a negative replica count the defaults are read up to `--bootstrap-expect`. */
  lemma NegativeHMetaDefaults(hdb: Instance, replicas: int, args: seq<string>)
    requires replicas < 0
    ensures var read := HMetaDefaults(hdb, replicas)[..3] + [("--bootstrap-expect", "")];
            && GoodDefaults(read) && "--http-addr" !in Put(map[], read) && "-p" !in Put(map[], read)
            && ContainerArgs(args, HMetaDefaults(hdb, replicas)) == ContainerArgs(args, read)
  {
    hide ContainerArgs;
    var es := HMetaDefaults(hdb, replicas);
    var read := es[..3] + [("--bootstrap-expect", "")];
    NegativeNotPlain(replicas);
    HMetaKeys();
    assert Plain(es[0].1) && Plain(es[1].1) && Plain(es[2].1);
    assert es == es[..3] + ([("--bootstrap-expect", Itoa(replicas))] + es[4..]);
    DefaultsCutShort(args, es[..3], "--bootstrap-expect", Itoa(replicas), es[4..]);
    NotPut(read, "--http-addr");
    NotPut(read, "-p");
  }

  lemma HMetaKeys()
    ensures IsKey("--disco-mode") && IsKey("--join-interval") && IsKey("--join-attempts")
    ensures IsKey("--bootstrap-expect") && IsKey("--disco-config")
  {
  }

  lemma NotPut(entries: seq<Entry>, k: string)
    requires forall i :: 0 <= i < |entries| ==> entries[i].0 != k
    ensures k !in Put(map[], entries)
  {
    PutFrom(map[], entries);
  }

  /** HMeta: for accepted arguments the StatefulSet and the Service agree
      exactly when every value survives printing, or the port is the default
      anyway, or the user already named both possible ports. */
  lemma HMetaPortsAgree(hdb: Instance, replicas: int, args: seq<string>, ports: seq<Port>)
    requires Parse(args).Accepted() && replicas <= INT64_MAX
    ensures Agree(HMetaWorkloadPorts(args, ports, HMetaDefaults(hdb, replicas)), HMetaServicePorts(args, ports))
            <==> (|| AllPlain(Parse(args).flags)
                  || HttpAddrPort(Parse(args).flags).None?
                  || (Named(ports, "port") && Named(ports, "rqlite")))
  {
    var u := Parse(args).flags;
    var read := if AllPlain(u) then HMetaPortOf(u) else DefaultHMetaPort;
    if replicas < 0 {
      NegativeHMetaDefaults(hdb, replicas, args);
      HMetaWorkloadReads(HMetaDefaults(hdb, replicas)[..3] + [("--bootstrap-expect", "")], args, ports);
    } else {
      GoodHMetaDefaults(hdb, replicas);
      HMetaWorkloadReads(HMetaDefaults(hdb, replicas), args, ports);
    }
    OnePortAgrees(ports, read, HMetaPortOf(u));
  }

  lemma OnePortAgrees(ports: seq<Port>, a: Port, b: Port)
    requires a.name != "" && b.name != ""
    ensures ToService(ExtendWith(ports, [a])) == ToService(ExtendWith(ports, [b]))
            <==> a == b || (Named(ports, a.name) && Named(ports, b.name))
  {
    ToServiceInjective(ExtendWith(ports, [a]), ExtendWith(ports, [b]));
    ExtendByOne(ports, a);
    ExtendByOne(ports, b);
    assert (ports + [a])[|ports|] == a && (ports + [b])[|ports|] == b;
    assert |ports + [a]| == |ports| + 1 == |ports + [b]|;
  }

  /** The StatefulSet sees the user's port if all values are plain, else the default one. */
  lemma HMetaWorkloadReads(defaults: seq<Entry>, args: seq<string>, ports: seq<Port>)
    requires Parse(args).Accepted() && GoodDefaults(defaults)
    requires "--http-addr" !in Put(map[], defaults) && "-p" !in Put(map[], defaults)
    ensures var u := Parse(args).flags;
            HMetaWorkloadPorts(args, ports, defaults) ==
            Ok(ExtendWith(ports, [if AllPlain(u) then HMetaPortOf(u) else DefaultHMetaPort]))
  {
    var u, d := Parse(args).flags, Put(map[], defaults);
    var m := Merge(u, d);
    ContainerArgsOfAccepted(args, defaults);
    PutFrom(map[], defaults);
    PlainOfMerge(u, d);
    SameHttpPort(u, d);
    PortReadBack(m);
    PortsOfContainer(defaults, args, ports, Print(m));
  }

  lemma PortsOfContainer(defaults: seq<Entry>, args: seq<string>, ports: seq<Port>, a: seq<string>)
    requires ContainerArgs(args, defaults) == Ok(a) && !ParseHMetaPort(a).Panic?
    ensures HMetaWorkloadPorts(args, ports, defaults) == Ok(ExtendWith(ports, [PortOrDefault(ParseHMetaPort(a))]))
  {
  }

  lemma PortReadBack(m: map<string, string>)
    requires Keyed(m)
    ensures ParseHMetaPort(Print(m)) == if AllPlain(m) then Ok(HMetaPortOf(m)) else Err
  {
    RoundTrip(m);
  }

  lemma SameHttpPort(u: map<string, string>, d: map<string, string>)
    requires "--http-addr" !in d
    ensures HMetaPortOf(Merge(u, d)) == HMetaPortOf(u)
  {
    UserWinsHttpAddr(u, d);
  }

  lemma UserWinsHttpAddr(u: map<string, string>, d: map<string, string>)
    requires "--http-addr" !in d
    ensures "--http-addr" in Merge(u, d) <==> "--http-addr" in u
    ensures "--http-addr" in u ==> Merge(u, d)["--http-addr"] == u["--http-addr"]
  {
  }

  lemma ExtendByOne(ports: seq<Port>, p: Port)
    requires p.name != ""
    ensures ExtendWith(ports, [p]) == if Named(ports, p.name) then ports else ports + [p]
  {
    assert [p][1..] == [];
  }

  /** When defaults are plain, the merge is plain exactly when the user's values are. */
  lemma PlainOfMerge(u: map<string, string>, d: map<string, string>)
    requires AllPlain(d) && "-p" !in d
    ensures AllPlain(Merge(u, d)) <==> AllPlain(u)
  {
    UserWins(u, d);
    assert forall f :: f in u ==> Merge(u, d)[f] == u[f];
    forall f | f in Merge(u, d) && f !in u ensures Plain(Merge(u, d)[f]) {
      MergeHolds(u, d, f);
    }
  }
}
