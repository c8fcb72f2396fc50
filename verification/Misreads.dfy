/** Inputs on which quiescence fails: a settled cluster that one failed read makes the
    operator write again, with nothing else going wrong. */
module Misreads {
  import opened Text
  import opened Flags
  import opened Ports
  import opened HMeta
  import opened Api
  import opened HServer
  import opened Templates
  import opened Cluster
  import opened Steps
  import opened Settling
  import opened Panics
  import opened Convergence
  import opened Quiescence
  import opened Safety
  import opened Shards

  // ---------- a settled world ----------

  /** A resource that can be built, with an external HMeta, a gateway and no console. */
  ghost predicate Simple(spec: Spec) {
    !CanPanic(spec) && spec.externalHMeta.Some? && spec.gateway.Some? && spec.console.None?
  }

  function Stored(e: Surroundings, key: Key, body: Body): Object { Object(e.hash(key, body), body, 1) }

  ghost function BodyOf(template: Result<Template>): Body {
    match template
    case Ok(t) => WorkloadBody(t)
    case _ => ServiceBody([])
  }

  ghost function PortsBody(ports: Result<seq<ServicePort>>): Body {
    match ports
    case Ok(p) => ServiceBody(p)
    case _ => ServiceBody([])
  }

  ghost function LiveServer(e: Surroundings, spec: Spec): Object {
    Stored(e, Workload(KHServer), BodyOf(HServerTemplate(spec)))
  }

  ghost function SettledObjects(e: Surroundings, spec: Spec, shards: int): map<Key, Object>
    requires spec.gateway.Some?
  {
    map[Service(KAdminServer) := Stored(e, Service(KAdminServer), PortsBody(ContainerServicePorts(spec, KAdminServer))),
        Service(KHStore) := Stored(e, Service(KHStore), PortsBody(ContainerServicePorts(spec, KHStore))),
        Service(KHServer) := Stored(e, Service(KHServer), PortsBody(ContainerServicePorts(spec, KHServer))),
        Workload(KAdminServer) := Stored(e, Workload(KAdminServer), BodyOf(AdminServerTemplate(spec))),
        Workload(KHStore) := Stored(e, Workload(KHStore), HStoreBody(spec, shards)),
        Workload(KHServer) := LiveServer(e, spec),
        Workload(KGateway) := Stored(e, Workload(KGateway), GatewayBody(spec, LiveHServerPort(LiveServer(e, spec), spec)))]
  }

  const ALL_READY: map<Condition, bool> :=
    map[HMetaReady := true, HStoreReady := true, HServerReady := true, GatewayReady := true, Ready := true]

  /** The world a done pass leaves, with the given shard count on record. */
  ghost function SettledWorld(e: Surroundings, spec: Spec, shards: int32): World
    requires spec.gateway.Some?
  {
    World(spec, ALL_READY, map[], 1, Some(ConfigFor(spec)), Some(Itoa(shards)), SettledObjects(e, spec, shards), 9, [], 0, 0, 0)
  }

  lemma WorldIsSettled(e: Surroundings, spec: Spec, shards: int32)
    requires Simple(spec)
    ensures Settled(e, SettledWorld(e, spec, shards), spec, |STEPS|)
  {
    hide AdminServerTemplate, HStoreTemplate, HServerTemplate, HMetaTemplate, ConsoleTemplate, GatewayTemplate, ContainerServicePorts,
         LiveHServerPort, ConfigFor, Itoa, HServerPanics, ConsolePanics, ReachesLoneDash, ShardCount;
    var w := SettledWorld(e, spec, shards);
    PanicsExactly(spec, shards);
    HServerPanicsOnOwn(spec);
    PortsPanic(spec);
    PortsNoError(spec);
    CountRead(shards, spec.nShards);
    forall i: nat | i < |STEPS| ensures Part(e, w, spec, i) {
      assert i == 1 ==> ServiceDone(e, w, spec, KAdminServer) && ServiceDone(e, w, spec, KHStore) && ServiceDone(e, w, spec, KHServer);
    }
  }

  lemma PortsNoError(spec: Spec)
    ensures !ContainerServicePorts(spec, KAdminServer).Err? && !ContainerServicePorts(spec, KHStore).Err? && !ContainerServicePorts(spec, KHServer).Err?
  {
    hide Cover, ExtendWith, ToService;
  }

  lemma CountRead(n: int32, otherwise: int32)
    ensures ShardCount(Itoa(n), otherwise) == n
  {
    hide Itoa, Atoi;
    AtoiItoa(n);
  }

  // ---------- undisturbed steps on it ----------

  /** Where an undisturbed pass over the settled world stands. */
  ghost predicate At(e: Surroundings, s: State, clock: nat) {
    && s.clock == clock && Synced(s) && Settled(e, s.w, s.copy.spec, |STEPS|)
    && Recorded(s.w, HStoreReady) && Recorded(s.w, HServerReady)
    && s.copy.spec.externalHMeta.Some?
  }

  /** The calls a step then makes. */
  function Calls(i: nat): nat {
    match i
    case 0 => 2
    case 1 => 3
    case 3 => 2
    case 4 => 1
    case 5 => 2
    case 7 => 1
    case _ => 0
  }

  function ClockAt(i: nat): nat {
    if i == 0 then 1 else ClockAt(i - 1) + Calls(i - 1)
  }

  ghost predicate IdleFor(e: Surroundings, s: State, calls: nat) {
    forall i :: s.clock <= i < s.clock + calls ==> Idle(e.tape(i))
  }

  predicate Stays(s: State, t: State, calls: nat) {
    t.w == s.w && t.copy == s.copy && t.clock == s.clock + calls
  }

  lemma EnsureStays(e: Surroundings, s: State, key: Key, body: Body)
    requires UpToDate(e, s.w, key, body) && IdleFor(e, s, 1)
    ensures var (t, v) := Ensure(e, s, key, body);
            v.Go? && Stays(s, t, 1)
  {
    hide Interfere;
    IdleCall(e, s);
  }

  lemma LogDeviceStays(e: Surroundings, s: State)
    requires Part(e, s.w, s.copy.spec, 0) && IdleFor(e, s, 2)
    ensures var (t, v) := LogDeviceStep(e, s);
            v.Go? && Stays(s, t, 2)
  {
    hide Interfere, ConfigFor, Itoa;
    IdleCall(e, s);
    IdleCall(e, Call(e, s));
  }

  lemma ServicesStay(e: Surroundings, s: State)
    requires Part(e, s.w, s.copy.spec, 1) && s.copy.spec.externalHMeta.Some? && IdleFor(e, s, 3)
    ensures var (t, v) := ServicesStep(e, s);
            v.Go? && Stays(s, t, 3)
  {
    hide Ensure, ContainerServicePorts;
    var spec := s.copy.spec;
    ServicesUnfold(e, s);
    assert ServiceDone(e, s.w, spec, KAdminServer) && ServiceDone(e, s.w, spec, KHStore) && ServiceDone(e, s.w, spec, KHServer);
    var b2, b3, b4 := ContainerServicePorts(spec, KAdminServer), ContainerServicePorts(spec, KHStore), ContainerServicePorts(spec, KHServer);
    EnsureStays(e, s, Service(KAdminServer), ServiceBody(b2.value));
    var s2 := Ensure(e, s, Service(KAdminServer), ServiceBody(b2.value)).0;
    EnsureStays(e, s2, Service(KHStore), ServiceBody(b3.value));
    var s3 := Ensure(e, s2, Service(KHStore), ServiceBody(b3.value)).0;
    EnsureStays(e, s3, Service(KHServer), ServiceBody(b4.value));
  }

  lemma WorkloadStays(e: Surroundings, s: State, kind: Kind, template: Result<Template>)
    requires TemplateUpToDate(e, s.w, kind, template) && IdleFor(e, s, 1)
    ensures var (t, v) := WorkloadOf(e, s, kind, template);
            v.Go? && Stays(s, t, 1)
  {
    hide Ensure;
    EnsureStays(e, s, Workload(kind), WorkloadBody(template.value));
  }

  lemma HStoreStays(e: Surroundings, s: State)
    requires Part(e, s.w, s.copy.spec, 5) && IdleFor(e, s, 2)
    ensures var (t, v) := HStoreStep(e, s);
            v.Go? && Stays(s, t, 2)
  {
    hide Interfere, HStoreTemplate, WorkloadOf, ShardCount;
    IdleCall(e, s);
    var s1 := Call(e, s);
    WorkloadStays(e, s1, KHStore, HStoreTemplate(s1.copy.spec, ShardsSeen(e, s1)));
  }

  /** The freshness fence writes the status, and nothing else changes. */
  lemma FenceStays(e: Surroundings, s: State)
    requires At(e, s, s.clock) && IdleFor(e, s, 2)
    ensures var (t, v) := HMetaStatusStep(e, s);
            v.Go? && At(e, t, s.clock + 2) && t.copy.spec == s.copy.spec && SameOwned(s.w, t.w)
  {
    hide Interfere, StatusWrite, Part, AllReachable;
    var (t, v) := HMetaStatusStep(e, s);
    FenceClock(e, s);
    HMetaStatusAdvances(e, s);
    HMetaStatusRests(e, s);
    assert Calm(e, s, t);
    SettledSame(e, s.w, t.w, s.copy.spec, |STEPS|);
  }

  lemma FenceClock(e: Surroundings, s: State)
    requires s.copy.spec.externalHMeta.Some? && IdleFor(e, s, 2)
    ensures HMetaStatusStep(e, s).0.clock == s.clock + 2
  {
    hide Interfere, AllReachable;
    IdleCall(e, s);
    StatusWriteClock(e, WithCondition(Call(e, s).(copy := Call(e, s).copy.(nodes := TickOf(e, Call(e, s)).nodes)), HMetaReady, true));
  }

  lemma StatusWriteClock(e: Surroundings, s: State)
    ensures StatusWrite(e, s).0.clock == s.clock + 1
  {
    hide Interfere;
  }

  lemma StepStays(e: Surroundings, s: State, i: nat)
    requires i < 9 && At(e, s, s.clock) && IdleFor(e, s, Calls(i))
    ensures var (t, v) := RunStep(e, s, STEPS[i]);
            v.Go? && At(e, t, s.clock + Calls(i)) && t.copy.spec == s.copy.spec && SameOwned(s.w, t.w)
  {
    hide LogDeviceStep, ServicesStep, HMetaStatusStep, HStoreStep, WorkloadOf, AdminServerTemplate, HServerTemplate, HStoreTemplate,
         GatewayTemplate, HMetaTemplate, ConsoleTemplate, LiveHServerPort, ContainerServicePorts, Interfere;
    var spec := s.copy.spec;
    assert Part(e, s.w, spec, i);
    if i == 0 { LogDeviceStays(e, s); }
    else if i == 1 { ServicesStay(e, s); }
    else if i == 3 { FenceStays(e, s); }
    else if i == 4 { WorkloadStays(e, s, KAdminServer, AdminServerTemplate(spec)); }
    else if i == 5 { HStoreStays(e, s); }
    else if i == 7 { WorkloadStays(e, s, KHServer, HServerTemplate(spec)); }
  }

  lemma {:induction false} Reaches(e: Surroundings, s: State, i: nat, j: nat)
    requires i <= j <= 9 && At(e, s, ClockAt(i))
    requires forall n :: ClockAt(i) <= n < ClockAt(j) ==> Idle(e.tape(n))
    ensures Before(e, s, i, j).Some?
    ensures var u := Before(e, s, i, j).value;
            At(e, u, ClockAt(j)) && u.copy.spec == s.copy.spec && SameOwned(s.w, u.w)
    decreases j - i
  {
    hide RunStep, At, SameOwned, Idle, Calls;
    SameOwnedItself(s.w);
    if i < j {
      var t := RunStep(e, s, STEPS[i]).0;
      ClockGrows(i + 1, j);
      AtClock(e, s, ClockAt(i));
      StepStays(e, s, i);
      Reaches(e, t, i + 1, j);
      SameOwnedTransitive(s.w, t.w, Before(e, t, i + 1, j).value.w);
    }
  }

  lemma AtClock(e: Surroundings, s: State, clock: nat)
    requires At(e, s, clock)
    ensures s.clock == clock
  {
  }

  lemma {:induction false} ClockGrows(i: nat, j: nat)
    requires i <= j
    ensures ClockAt(i) <= ClockAt(j)
    decreases j - i
  {
    if i < j { ClockGrows(i, j - 1); }
  }

  // ---------- the inputs ----------

  /** A state just after a done pass. */
  ghost function Start(e: Surroundings, spec: Spec, shards: int32): State
    requires spec.gateway.Some?
  {
    var w := SettledWorld(e, spec, shards);
    State(w, Copy(spec, ALL_READY, map[], 1), 0, [w])
  }

  lemma StartIsAt(e: Surroundings, spec: Spec, shards: int32)
    requires Simple(spec) && Idle(e.tape(0))
    ensures At(e, Begin(Call(e, Start(e, spec, shards)), Current), 1)
    ensures SpecOf(e, Start(e, spec, shards), Current) == spec
  {
    hide Settled, Interfere, CanPanic, SettledObjects, ConfigFor, Itoa;
    WorldIsSettled(e, spec, shards);
    IdleCall(e, Start(e, spec, shards));
  }

  const IDLE: Tick := Tick(Interference(None, 0, map[]), NoFault, false, false, map["a" := HMetaNode(true, true, "")], true)

  /** Every call is idle but one, whose read fails. */
  function Tape(at: nat, failing: Tick): nat -> Tick { n => if n == at then failing else IDLE }

  lemma IdleIsIdle()
    ensures Idle(IDLE)
  {
    assert |IDLE.nodes| == 1;
  }

  lemma Clocks()
    ensures ClockAt(0) == 1 && ClockAt(5) == 9 && ClockAt(9) == 12
  {
    assert ClockAt(1) == 3 && ClockAt(2) == 6 && ClockAt(3) == 6 && ClockAt(4) == 8;
    assert ClockAt(6) == 11 && ClockAt(7) == 11 && ClockAt(8) == 12;
  }

  /** From a settled cluster, the only failure of a pass is the read of HServer's port: the
      gateway is written again, whenever its template hashes differently for the default port. */
  lemma FailedPortReadRewrites(spec: Spec, hash: (Key, Body) -> string, shards: int32)
    requires Simple(spec)
    requires var e := Surroundings(Tape(12, IDLE.(portReadFails := true)), hash);
             hash(Workload(KGateway), GatewayBody(spec, HSERVER_PORT.containerPort))
             != hash(Workload(KGateway), GatewayBody(spec, LiveHServerPort(LiveServer(e, spec), spec)))
    ensures var e := Surroundings(Tape(12, IDLE.(portReadFails := true)), hash);
            var s := Start(e, spec, shards);
            && Settled(e, s.w, spec, |STEPS|) && SpecOf(e, s, Current) == spec
            && Pass(e, s, Current).0.w.writes > s.w.writes
  {
    hide Settled, Pass, Interfere, CanPanic, SettledWorld, RunStep, GatewayBody, Before, At, SameOwned, PassRewrites, LiveServer;
    var e := Surroundings(Tape(12, IDLE.(portReadFails := true)), hash);
    var s := Start(e, spec, shards);
    IdleIsIdle();
    Clocks();
    WorldIsSettled(e, spec, shards);
    StartIsAt(e, spec, shards);
    var b := Begin(Call(e, s), Current);
    Reaches(e, b, 0, 9);
    LiveServerStays(e, spec, shards, Before(e, b, 0, 9).value);
    PortMisread(e, s, spec);
    PassRewritesExactly(e, s, Current, spec);
  }

  lemma LiveServerStays(e: Surroundings, spec: Spec, shards: int32, u: State)
    requires spec.gateway.Some? && Idle(e.tape(0)) && SameOwned(Begin(Call(e, Start(e, spec, shards)), Current).w, u.w)
    ensures Workload(KHServer) in u.w.objects && u.w.objects[Workload(KHServer)].body == LiveServer(e, spec).body
  {
    hide Interfere, HServerTemplate, GatewayBody, HStoreBody, PortsBody, BodyOf, ConfigFor, Itoa;
    IdleCall(e, Start(e, spec, shards));
  }

  lemma PortMisread(e: Surroundings, s: State, spec: Spec)
    requires spec.gateway.Some? && Before(e, Begin(Call(e, s), Current), 0, 9).Some?
    requires var u := Before(e, Begin(Call(e, s), Current), 0, 9).value;
             && At(e, u, 12) && u.copy.spec == spec
             && Workload(KHServer) in u.w.objects && u.w.objects[Workload(KHServer)].body == LiveServer(e, spec).body
    requires e.hash(Workload(KGateway), GatewayBody(spec, HSERVER_PORT.containerPort))
             != e.hash(Workload(KGateway), GatewayBody(spec, LiveHServerPort(LiveServer(e, spec), spec)))
    requires e.tape(12).portReadFails && e.tape(13).fault == NoFault && e.tape(14).fault == NoFault
    ensures PassRewrites(e, s, Current)
  {
    hide RunStep, GatewayBody, Before, Begin, LiveServer, LiveHServerPort, Settled, Interfere;
    var u := Before(e, Begin(Call(e, s), Current), 0, 9).value;
    LivePortOfBody(u.w.objects[Workload(KHServer)], LiveServer(e, spec), spec);
    assert GatewayRewrites(e, u);
  }

  /** From a settled cluster, the only failure of a pass is the read of the shard record: HStore
      is written again, whenever its template hashes differently for the resource's own count. */
  lemma FailedShardReadRewrites(spec: Spec, hash: (Key, Body) -> string, shards: int32)
    requires Simple(spec)
    requires hash(Workload(KHStore), HStoreBody(spec, spec.nShards)) != hash(Workload(KHStore), HStoreBody(spec, shards))
    ensures var e := Surroundings(Tape(9, IDLE.(shardReadFails := true)), hash);
            var s := Start(e, spec, shards);
            && Settled(e, s.w, spec, |STEPS|) && SpecOf(e, s, Current) == spec
            && Pass(e, s, Current).0.w.writes > s.w.writes
  {
    hide Settled, Pass, Interfere, CanPanic, SettledWorld, RunStep, HStoreBody, Before, At, SameOwned, PassRewrites;
    var e := Surroundings(Tape(9, IDLE.(shardReadFails := true)), hash);
    var s := Start(e, spec, shards);
    IdleIsIdle();
    Clocks();
    WorldIsSettled(e, spec, shards);
    StartIsAt(e, spec, shards);
    var b := Begin(Call(e, s), Current);
    Reaches(e, b, 0, 5);
    RecordStays(e, spec, shards, Before(e, b, 0, 5).value);
    ShardMisread(e, s, spec, shards);
    PassRewritesExactly(e, s, Current, spec);
  }

  lemma RecordStays(e: Surroundings, spec: Spec, shards: int32, u: State)
    requires spec.gateway.Some? && Idle(e.tape(0)) && SameOwned(Begin(Call(e, Start(e, spec, shards)), Current).w, u.w)
    ensures u.w.nshards == Some(Itoa(shards))
  {
    hide Interfere, SettledObjects, ConfigFor, Itoa;
    IdleCall(e, Start(e, spec, shards));
  }

  lemma ShardMisread(e: Surroundings, s: State, spec: Spec, shards: int32)
    requires Before(e, Begin(Call(e, s), Current), 0, 5).Some?
    requires var u := Before(e, Begin(Call(e, s), Current), 0, 5).value;
             At(e, u, 9) && u.copy.spec == spec && u.w.nshards == Some(Itoa(shards))
    requires e.hash(Workload(KHStore), HStoreBody(spec, spec.nShards)) != e.hash(Workload(KHStore), HStoreBody(spec, shards))
    requires e.tape(9).shardReadFails && e.tape(10).fault == NoFault && e.tape(11).fault == NoFault
    ensures PassRewrites(e, s, Current)
  {
    hide RunStep, HStoreBody, Before, Begin, Settled, Interfere, Itoa, ShardCount;
    var u := Before(e, Begin(Call(e, s), Current), 0, 5).value;
    CountRead(shards, spec.nShards);
    assert HStoreRewrites(e, u);
  }

  /** And the live HStore no longer carries the recorded count, if the two counts give different mounts. */
  lemma FailedShardReadStrays(spec: Spec, hash: (Key, Body) -> string, shards: int32)
    requires Simple(spec) && !SameMounts(spec.nShards, shards)
    requires hash(Workload(KHStore), HStoreBody(spec, spec.nShards)) != hash(Workload(KHStore), HStoreBody(spec, shards))
    ensures var e := Surroundings(Tape(9, IDLE.(shardReadFails := true)), hash);
            var s := Start(e, spec, shards);
            CarriesRecorded(s.w) && !CarriesRecorded(Pass(e, s, Current).0.w)
  {
    hide Settled, Pass, Interfere, CanPanic, RunStep, Before, At, SameOwned, PassStrays, HStoreTemplate, CarriesRecorded, ShardsRecorded,
         SettledWorld;
    var e := Surroundings(Tape(9, IDLE.(shardReadFails := true)), hash);
    var s := Start(e, spec, shards);
    IdleIsIdle();
    Clocks();
    StartIsAt(e, spec, shards);
    var b := Begin(Call(e, s), Current);
    Reaches(e, b, 0, 5);
    RecordStays(e, spec, shards, Before(e, b, 0, 5).value);
    CountStrays(e, s, spec, shards);
    StartCarries(e, spec, shards);
    PassCarries(e, s, Current);
  }

  lemma StartCarries(e: Surroundings, spec: Spec, shards: int32)
    requires Simple(spec)
    ensures CarriesRecorded(SettledWorld(e, spec, shards)) && ShardsRecorded(SettledWorld(e, spec, shards))
  {
    hide HStoreTemplate, HStoreBody, ShardCount, Itoa, ContainerServicePorts, GatewayBody, LiveHServerPort, HServerTemplate, AdminServerTemplate,
         ConfigFor, ShardMounts, HServerPanics, ConsolePanics, ReachesLoneDash;
    PanicsExactly(spec, shards);
    BuiltMounts(spec, shards);
    CountRead(shards, 0);
  }

  lemma CountStrays(e: Surroundings, s: State, spec: Spec, shards: int32)
    requires Before(e, Begin(Call(e, s), Current), 0, 5).Some?
    requires var u := Before(e, Begin(Call(e, s), Current), 0, 5).value;
             At(e, u, 9) && u.copy.spec == spec && u.w.nshards == Some(Itoa(shards))
    requires !SameMounts(spec.nShards, shards)
    requires e.hash(Workload(KHStore), HStoreBody(spec, spec.nShards)) != e.hash(Workload(KHStore), HStoreBody(spec, shards))
    requires e.tape(9).shardReadFails && e.tape(10).fault == NoFault && e.tape(11).fault == NoFault
    ensures PassStrays(e, s, Current)
  {
    hide RunStep, HStoreTemplate, Before, Begin, Interfere, Itoa, ShardCount, SameMounts, GatewayTemplate, ContainerServicePorts;
    var u := Before(e, Begin(Call(e, s), Current), 0, 5).value;
    CountRead(shards, spec.nShards);
    CallOwns(e, u);
    assert Part(e, u.w, spec, 5);
    OkForEveryCount(spec, shards, spec.nShards);
    assert Strays(e, u);
  }

  // ---------- a concrete resource and hash ----------

  function Plainly(ports: seq<Port>): Component { Component(1, Container("", [], [], ports, [], ""), "") }

  /** HServer listens on port 7000; two shards are asked for. */
  const SAMPLE: Spec := Spec(Instance("db", "ns"), Some(ExternalHMeta("meta", 4001, "")), None, 2, "",
                             Some(Gateway(Plainly([]), 80, "", None)), None,
                             Plainly([]), Plainly([Port("port", 7000, "TCP")]), Plainly([]), Plainly([]))

  /** A hash that looks at the service address of a gateway and at the mounts of the others. */
  function Digest(key: Key, body: Body): string {
    if body.ServiceBody? then ""
    else if key == Workload(KGateway) then
      match EnvNamed(body.template.env, "HSTREAM_SERVICE_URL")
      case Some(url) => url
      case None => ""
    else Itoa(|body.template.mounts|)
  }

  lemma SampleIsSimple()
    ensures Simple(SAMPLE)
  {
    hide OwnCommand;
    assert !ReachesLoneDash([]);
  }

  /** A gateway without variables of its own tells its HServer address in its environment. */
  lemma GatewayEnvs(hdb: Instance, g: Gateway, port: int)
    requires g.component.container.env == [] && g.secretRef.None?
    ensures EnvNamed(GatewayTemplate(hdb, g, port).env, "HSTREAM_SERVICE_URL") == Some(ServiceUrl(hdb, port))
  {
    hide ExtendWith, ServiceUrl;
    var host, url, tls := EnvVar("ENDPOINT_HOST", g.endpoint), EnvVar("HSTREAM_SERVICE_URL", ServiceUrl(hdb, port)), EnvVar("ENABLE_TLS", "false");
    assert [host, url][1..] == [url] && [url][1..] == [] && [tls][1..] == [];
    assert MissingEnvs([], [host, url]) == [host] + MissingEnvs([], [url]);
    assert ExtendedEnvs([], [host, url]) == [host, url];
    assert MissingEnvs([host, url], [tls]) == [tls];
    var env := GatewayTemplate(hdb, g, port).env;
    assert env == [host, url, tls];
    assert env[1..][0] == url;
    assert EnvNamed(env[1..], "HSTREAM_SERVICE_URL") == Some(url.value);
  }

  lemma GatewayDigest(port: int)
    ensures Digest(Workload(KGateway), GatewayBody(SAMPLE, port)) == ServiceUrl(SAMPLE.instance, port)
  {
    hide GatewayTemplate, ServiceUrl, EnvNamed;
    GatewayEnvs(SAMPLE.instance, SAMPLE.gateway.value, port);
  }

  lemma HServerShape(spec: Spec)
    requires HServerTemplate(spec).Ok?
    ensures StatefulSetPorts(spec).Ok? && HServerTemplate(spec).value.ports == StatefulSetPorts(spec).value
    ensures HServerTemplate(spec).value.name == NameOr(spec.hServer.container.name, "hserver")
  {
    hide Run, Managed, StatefulSetPorts, Tokens;
  }

  lemma SampleLivePort(e: Surroundings)
    ensures LiveHServerPort(LiveServer(e, SAMPLE), SAMPLE) == 7000
  {
    hide HServerTemplate, StatefulSetPorts;
    SampleBuilds();
    HServerShape(SAMPLE);
    SamplePorts();
    assert [Port("port", 7000, "TCP"), INTERNAL_PORT][0].name == "port";
  }

  lemma SampleBuilds()
    ensures HServerTemplate(SAMPLE).Ok? && forall n: int :: HStoreTemplate(SAMPLE, n).Ok?
  {
    hide HServerTemplate, HStoreTemplate, OwnCommand, Run, Managed;
    assert !ReachesLoneDash([]);
    forall n: int ensures HStoreTemplate(SAMPLE, n).Ok? { PanicsExactly(SAMPLE, n); }
    PanicsExactly(SAMPLE, 0);
  }

  lemma SamplePorts()
    ensures StatefulSetPorts(SAMPLE) == Ok([Port("port", 7000, "TCP"), INTERNAL_PORT])
  {
    PortsWithoutArgs(SAMPLE, Port("port", 7000, "TCP"));
  }

  lemma UrlTellsPort(a: int, b: int)
    requires a != b
    ensures ServiceUrl(SAMPLE.instance, a) != ServiceUrl(SAMPLE.instance, b)
  {
    var prefix := "hstream://" + HeadlessName(SAMPLE.instance, "hserver") + "." + SAMPLE.instance.namespace + ":";
    assert ServiceUrl(SAMPLE.instance, a)[|prefix|..] == Itoa(a) && ServiceUrl(SAMPLE.instance, b)[|prefix|..] == Itoa(b);
    if Itoa(a) == Itoa(b) { ItoaInjective(a, b); }
  }

  /** Quiescence fails for the sample when only the read of HServer's port fails. */
  lemma PortReadBreaksQuiescence()
    ensures var e := Surroundings(Tape(12, IDLE.(portReadFails := true)), Digest);
            var s := Start(e, SAMPLE, 1);
            && Settled(e, s.w, SAMPLE, |STEPS|) && SpecOf(e, s, Current) == SAMPLE
            && Pass(e, s, Current).0.w.writes > s.w.writes
  {
    hide Settled, Pass, GatewayBody, LiveServer, LiveHServerPort, ServiceUrl, Start, Simple, Digest, SpecOf;
    var e := Surroundings(Tape(12, IDLE.(portReadFails := true)), Digest);
    SampleIsSimple();
    GatewayDigest(6570);
    GatewayDigest(7000);
    SampleLivePort(e);
    UrlTellsPort(6570, 7000);
    assert SAMPLE.gateway.Some?;
    FailedPortReadRewrites(SAMPLE, Digest, 1);
  }

  /** And when only the read of the shard record fails: one shard is recorded, two are asked for. */
  lemma ShardReadBreaksQuiescence()
    ensures var e := Surroundings(Tape(9, IDLE.(shardReadFails := true)), Digest);
            var s := Start(e, SAMPLE, 1);
            && Settled(e, s.w, SAMPLE, |STEPS|) && SpecOf(e, s, Current) == SAMPLE
            && Pass(e, s, Current).0.w.writes > s.w.writes
  {
    hide Settled, Pass, HStoreBody, HStoreTemplate, HServerTemplate, Itoa, Start, Simple, Digest, SpecOf;
    SampleIsSimple();
    SampleBuilds();
    HStoreDigest(SAMPLE, 1);
    HStoreDigest(SAMPLE, 2);
    if Itoa(1) == Itoa(2) { ItoaInjective(1, 2); }
    assert SAMPLE.gateway.Some?;
    FailedShardReadRewrites(SAMPLE, Digest, 1);
  }

  lemma HStoreDigest(spec: Spec, n: nat)
    requires HStoreTemplate(spec, n).Ok?
    ensures Digest(Workload(KHStore), HStoreBody(spec, n)) == Itoa(n)
  {
    hide Itoa;
  }

  /** In the sample, the failed read leaves HStore with two shard mounts where one shard is recorded. */
  lemma ShardReadBreaksRecord()
    ensures var e := Surroundings(Tape(9, IDLE.(shardReadFails := true)), Digest);
            var s := Start(e, SAMPLE, 1);
            CarriesRecorded(s.w) && !CarriesRecorded(Pass(e, s, Current).0.w)
  {
    hide Pass, HStoreBody, HStoreTemplate, HServerTemplate, Itoa, Start, Simple, Digest, CarriesRecorded;
    SampleIsSimple();
    SampleBuilds();
    HStoreDigest(SAMPLE, 1);
    HStoreDigest(SAMPLE, 2);
    if Itoa(1) == Itoa(2) { ItoaInjective(1, 2); }
    assert SAMPLE.gateway.Some?;
    FailedShardReadStrays(SAMPLE, Digest, 1);
  }
}
