/** What each step leaves settled, and quiescence: a settled cluster is not written again. */
module Settling {
  import opened Text
  import opened Ports
  import opened Agreement
  import opened Api
  import opened HServer
  import opened Templates
  import opened Cluster
  import opened Steps

  /** From `s` to `t`, the reads whose failure the operator passes over all succeed. */
  ghost predicate SwallowedReadsSucceed(e: Surroundings, s: State, t: State) {
    forall i :: s.clock <= i < t.clock ==> !e.tape(i).shardReadFails && !e.tape(i).portReadFails
  }

  predicate UpToDate(e: Surroundings, w: World, key: Key, body: Body) {
    key in w.objects && w.objects[key].hash == e.hash(key, body)
  }

  ghost predicate TemplateUpToDate(e: Surroundings, w: World, kind: Kind, t: Result<Template>) {
    t.Ok? && UpToDate(e, w, Workload(kind), WorkloadBody(t.value))
  }

  predicate ServiceUpToDate(e: Surroundings, w: World, kind: Kind, p: Result<seq<ServicePort>>) {
    p.Ok? && UpToDate(e, w, Service(kind), ServiceBody(p.value))
  }

  function ContainerServicePorts(spec: Spec, kind: Kind): Result<seq<ServicePort>> {
    match kind
    case KHMeta => HMetaServicePorts(spec.hMeta.container.args, spec.hMeta.container.ports)
    case KAdminServer => ServicePortsOf(spec.adminServer.container.args, spec.adminServer.container.ports, ADMIN_SERVER_PORTS)
    case KHStore => ServicePortsOf(spec.hStore.container.args, spec.hStore.container.ports, HSTORE_PORTS)
    case _ => ServicePorts(spec.hServer.container)
  }

  const SERVICED := {KHMeta, KAdminServer, KHStore, KHServer}

  /** The Service of this kind is up to date, if the resource wants it. */
  predicate ServiceDone(e: Surroundings, w: World, spec: Spec, kind: Kind) {
    (kind == KHMeta && spec.externalHMeta.Some?) || ServiceUpToDate(e, w, kind, ContainerServicePorts(spec, kind))
  }

  /** What step `i` of a pass for the given resource leaves in place. */
  ghost predicate Part(e: Surroundings, w: World, spec: Spec, i: nat) {
    match i
    case 0 => w.logDevice.Some? && w.nshards.Some?
    case 1 => forall kind :: kind in SERVICED ==> ServiceDone(e, w, spec, kind)
    case 2 => spec.externalHMeta.None? ==> TemplateUpToDate(e, w, KHMeta, HMetaTemplate(spec))
    case 4 => TemplateUpToDate(e, w, KAdminServer, AdminServerTemplate(spec))
    case 5 => w.nshards.Some? && TemplateUpToDate(e, w, KHStore, HStoreTemplate(spec, ShardCount(w.nshards.value, spec.nShards)))
    case 7 => TemplateUpToDate(e, w, KHServer, HServerTemplate(spec))
    case 9 => spec.gateway.Some? ==>
      && Workload(KHServer) in w.objects
      && UpToDate(e, w, Workload(KGateway),
                  WorkloadBody(GatewayTemplate(spec.instance, spec.gateway.value, LiveHServerPort(w.objects[Workload(KHServer)], spec))))
    case 10 => spec.console.Some? ==> TemplateUpToDate(e, w, KConsole, ConsoleTemplate(spec, spec.console.value))
    case _ => true
  }

  /** The keys a part speaks about. */
  function KeysOf(i: nat): set<Key> {
    match i
    case 1 => set kind | kind in SERVICED :: Service(kind)
    case 2 => {Workload(KHMeta)}
    case 4 => {Workload(KAdminServer)}
    case 5 => {Workload(KHStore)}
    case 7 => {Workload(KHServer)}
    case 9 => {Workload(KGateway), Workload(KHServer)}
    case 10 => {Workload(KConsole)}
    case _ => {}
  }

  /** The keys a step may write. */
  function WrittenBy(i: nat): set<Key> {
    if i == 9 then {Workload(KGateway)} else KeysOf(i)
  }

  /** Only objects under the given keys were created or updated; ConfigMaps only created. */
  ghost predicate OnlyKeys(w: World, v: World, keys: set<Key>) {
    && (w.logDevice.Some? ==> v.logDevice == w.logDevice)
    && (w.nshards.Some? ==> v.nshards == w.nshards)
    && v.writes >= w.writes
    && (forall k :: k in v.objects && k !in keys ==> k in w.objects)
    && forall k :: k in w.objects && k !in keys ==>
         k in v.objects && v.objects[k].hash == w.objects[k].hash && v.objects[k].body == w.objects[k].body
  }

  /** No owned object was created or updated. */
  ghost predicate SameOwned(w: World, v: World) {
    && v.writes == w.writes && v.logDevice == w.logDevice && v.nshards == w.nshards
    && v.objects.Keys == w.objects.Keys
    && forall k :: k in w.objects ==> v.objects[k].hash == w.objects[k].hash && v.objects[k].body == w.objects[k].body
  }

  lemma PartFrame(e: Surroundings, w: World, v: World, spec: Spec, i: nat, keys: set<Key>)
    requires Part(e, w, spec, i) && OnlyKeys(w, v, keys) && keys !! KeysOf(i)
    ensures Part(e, v, spec, i)
  {
    hide HMetaTemplate, AdminServerTemplate, HStoreTemplate, HServerTemplate, ConsoleTemplate, GatewayTemplate,
         ContainerServicePorts, LiveHServerPort;
    forall k | k in KeysOf(i) && k in w.objects
      ensures k in v.objects && v.objects[k].hash == w.objects[k].hash && v.objects[k].body == w.objects[k].body
    {
    }
    if i == 9 && spec.gateway.Some? {
      var key := Workload(KHServer);
      assert key in KeysOf(i) && Workload(KGateway) in KeysOf(i);
      LivePortOfBody(w.objects[key], v.objects[key], spec);
    }
  }

  lemma LivePortOfBody(o: Object, p: Object, spec: Spec)
    requires o.body == p.body
    ensures LiveHServerPort(o, spec) == LiveHServerPort(p, spec)
  {
    hide FirstNamedPort, NameOr;
  }

  // ---------- calls ----------

  lemma CallOwns(e: Surroundings, s: State)
    ensures SameOwned(s.w, Call(e, s).w) && Call(e, s).copy == s.copy && Call(e, s).clock == s.clock + 1
  {
  }

  lemma EnsureOwns(e: Surroundings, s: State, key: Key, body: Body)
    ensures var (t, v) := Ensure(e, s, key, body);
            && t.copy == s.copy && t.clock >= s.clock && OnlyKeys(s.w, t.w, {key})
            && (v.Go? ==> UpToDate(e, t.w, key, body))
            && (UpToDate(e, s.w, key, body) ==> SameOwned(s.w, t.w))
            && t.w.logDevice == s.w.logDevice && t.w.nshards == s.w.nshards
  {
    hide Interfere;
    CallOwns(e, s);
    CallOwns(e, Call(e, s));
  }

  lemma StatusWriteOwns(e: Surroundings, s: State)
    ensures SameOwned(s.w, StatusWrite(e, s).0.w) && StatusWrite(e, s).0.copy.spec == s.copy.spec
    ensures StatusWrite(e, s).0.clock >= s.clock
  {
  }

  /** What must be in place before step `i` can settle its part. */
  predicate Needs(w: World, i: nat) {
    && (i == 5 ==> w.nshards.Some?)
    && (i == 9 ==> Workload(KHServer) in w.objects)
  }

  /** The recorded shard count is set in the first step only, from the resource. */
  ghost predicate RecordKept(w: World, v: World, spec: Spec, i: nat) {
    v.nshards == w.nshards || (i == 0 && v.nshards == Some(Itoa(MinNShards(spec.nShards))))
  }

  /** A step for the copy's resource only writes its own keys, leaves its part settled when it goes
      on, and writes nothing if its part was settled; the steps that pass over a failed read, if
      that read succeeds and what they need is there. */
  ghost predicate LeavesSettled(e: Surroundings, s: State, t: State, v: Verdict, i: nat) {
    var told := SwallowedReadsSucceed(e, s, t) && Needs(s.w, i);
    && t.copy.spec == s.copy.spec && t.clock >= s.clock
    && OnlyKeys(s.w, t.w, WrittenBy(i)) && RecordKept(s.w, t.w, s.copy.spec, i)
    && (v.Go? && (i in {0, 5, 9} ==> told) ==> Part(e, t.w, s.copy.spec, i))
    && (i == 0 && v.Go? ==> t.w.logDevice.Some?)
    && (Part(e, s.w, s.copy.spec, i) && (i in {5, 9} ==> told) ==> SameOwned(s.w, t.w))
  }

  lemma SameOwnedTransitive(a: World, b: World, c: World)
    requires SameOwned(a, b) && SameOwned(b, c)
    ensures SameOwned(a, c)
  {
  }

  // ---------- the steps ----------

  /** Nothing but ConfigMaps that were absent is created. */
  ghost predicate ConfigsOnly(s: State, t: State) {
    && t.copy == s.copy && t.clock >= s.clock && OnlyKeys(s.w, t.w, {})
    && (s.w.logDevice.Some? && s.w.nshards.Some? ==> SameOwned(s.w, t.w))
  }

  lemma ShardConfigSettles(e: Surroundings, s: State)
    ensures var (t, v) := ShardConfigPart(e, s);
            && ConfigsOnly(s, t) && t.w.logDevice == s.w.logDevice
            && RecordKept(s.w, t.w, s.copy.spec, 0)
            && (SwallowedReadsSucceed(e, s, t) && v.Go? ==> t.w.nshards.Some?)
  {
    hide Itoa, MinNShards;
    CallOwns(e, s);
  }

  lemma LogDeviceCreateSettles(e: Surroundings, s: State)
    requires s.w.logDevice.None?
    ensures var (t, v) := LogDeviceCreatePart(e, s);
            && ConfigsOnly(s, t) && RecordKept(s.w, t.w, s.copy.spec, 0) && (v.Go? ==> t.w.logDevice.Some?)
            && (SwallowedReadsSucceed(e, s, t) && v.Go? ==> t.w.nshards.Some?)
  {
    hide ConfigFor, ShardConfigPart, Interfere, Itoa;
    var s2 := Call(e, s);
    CallOwns(e, s);
    ShardConfigSettles(e, Store(s2, s2.w.(logDevice := Some(ConfigFor(s2.copy.spec)), writes := s2.w.writes + 1)));
  }

  lemma LogDeviceSettles(e: Surroundings, s: State)
    ensures var (t, v) := LogDeviceStep(e, s);
            LeavesSettled(e, s, t, v, 0)
  {
    hide LogDeviceCreatePart, ShardConfigPart, Interfere, Itoa;
    var s1 := Call(e, s);
    CallOwns(e, s);
    if s1.w.logDevice.Some? {
      ShardConfigSettles(e, s1);
    } else {
      LogDeviceCreateSettles(e, s1);
    }
  }

  lemma WorkloadSettles(e: Surroundings, s: State, kind: Kind, template: Result<Template>)
    ensures var (t, v) := WorkloadOf(e, s, kind, template);
            && t.copy == s.copy && t.clock >= s.clock && OnlyKeys(s.w, t.w, {Workload(kind)})
            && (v.Go? ==> TemplateUpToDate(e, t.w, kind, template))
            && (TemplateUpToDate(e, s.w, kind, template) ==> SameOwned(s.w, t.w))
            && t.w.logDevice == s.w.logDevice && t.w.nshards == s.w.nshards
  {
    hide Ensure;
    if template.Ok? { EnsureOwns(e, s, Workload(kind), WorkloadBody(template.value)); }
  }

  lemma ServiceSettles(e: Surroundings, s: State, kind: Kind, ports: Result<seq<ServicePort>>)
    ensures var (t, v) := ServiceOf(e, s, kind, ports);
            && t.copy == s.copy && t.clock >= s.clock && OnlyKeys(s.w, t.w, {Service(kind)})
            && (v.Go? ==> ServiceUpToDate(e, t.w, kind, ports))
            && (ServiceUpToDate(e, s.w, kind, ports) ==> SameOwned(s.w, t.w))
            && t.w.nshards == s.w.nshards
  {
    hide Ensure;
    if ports.Ok? { EnsureOwns(e, s, Service(kind), ServiceBody(ports.value)); }
  }

  /** The services step, with every Service's ports named by its kind. */
  lemma ServicesUnfold(e: Surroundings, s: State)
    ensures ServicesStep(e, s) ==
            (var spec := s.copy.spec;
             var (s1, v1) := HMetaServiceOf(e, s);
             if !v1.Go? then (s1, v1) else
             var (s2, v2) := ServiceOf(e, s1, KAdminServer, ContainerServicePorts(spec, KAdminServer));
             if !v2.Go? then (s2, v2) else
             var (s3, v3) := ServiceOf(e, s2, KHStore, ContainerServicePorts(spec, KHStore));
             if !v3.Go? then (s3, v3) else
             ServiceOf(e, s3, KHServer, ContainerServicePorts(spec, KHServer)))
  {
    hide ServiceOf, HMetaServiceOf, ServicePortsOf, ServicePorts;
  }

  /** Part of the services step is over: the Services of `kinds` are done. */
  ghost predicate ServicesSoFar(e: Surroundings, s: State, t: State, kinds: set<Kind>) {
    && t.copy == s.copy && t.clock >= s.clock && OnlyKeys(s.w, t.w, KeysOf(1)) && t.w.nshards == s.w.nshards
    && (forall kind :: kind in kinds ==> ServiceDone(e, t.w, s.copy.spec, kind))
    && (Part(e, s.w, s.copy.spec, 1) ==> SameOwned(s.w, t.w))
  }

  lemma NextService(e: Surroundings, s0: State, s: State, kinds: set<Kind>, kind: Kind)
    requires ServicesSoFar(e, s0, s, kinds) && kind in SERVICED && kind !in kinds
    requires kind == KHMeta ==> s0.copy.spec.externalHMeta.None?
    ensures var (t, v) := ServiceOf(e, s, kind, ContainerServicePorts(s0.copy.spec, kind));
            && ServicesSoFar(e, s0, t, kinds)
            && (v.Go? ==> ServicesSoFar(e, s0, t, kinds + {kind}))
  {
    hide ServiceOf, ContainerServicePorts, OnlyKeys, SameOwned;
    ServiceSettles(e, s, kind, ContainerServicePorts(s0.copy.spec, kind));
    var t := ServiceOf(e, s, kind, ContainerServicePorts(s0.copy.spec, kind)).0;
    AllServiceKeys(s0.w, s.w, t.w, kind);
    forall k | k in kinds ensures ServiceDone(e, t.w, s0.copy.spec, k) {
      assert ServiceDone(e, s.w, s0.copy.spec, k);
      DoneStill(e, s.w, t.w, s0.copy.spec, k, kind);
    }
    if Part(e, s0.w, s0.copy.spec, 1) {
      assert ServiceDone(e, s0.w, s0.copy.spec, kind);
      DoneSame(e, s0.w, s.w, s0.copy.spec, kind);
      SameOwnedTransitive(s0.w, s.w, t.w);
    }
  }

  lemma AllServiceKeys(a: World, b: World, c: World, kind: Kind)
    requires OnlyKeys(a, b, KeysOf(1)) && OnlyKeys(b, c, {Service(kind)}) && kind in SERVICED
    ensures OnlyKeys(a, c, KeysOf(1))
  {
    assert Service(kind) in KeysOf(1);
  }

  lemma DoneStill(e: Surroundings, w: World, v: World, spec: Spec, k: Kind, kind: Kind)
    requires ServiceDone(e, w, spec, k) && OnlyKeys(w, v, {Service(kind)}) && k != kind
    ensures ServiceDone(e, v, spec, k)
  {
    hide ContainerServicePorts;
  }

  lemma DoneSame(e: Surroundings, w: World, v: World, spec: Spec, k: Kind)
    requires ServiceDone(e, w, spec, k) && SameOwned(w, v)
    ensures ServiceDone(e, v, spec, k)
  {
    hide ContainerServicePorts;
  }

  lemma ServicesSettle(e: Surroundings, s: State)
    ensures var (t, v) := ServicesStep(e, s);
            LeavesSettled(e, s, t, v, 1)
  {
    hide ServiceOf, ServiceUpToDate, OnlyKeys, SameOwned;
    var spec := s.copy.spec;
    ServicesBegin(e, s);
    var (s1, v1) := HMetaServiceOf(e, s);
    if v1.Go? {
      NextService(e, s, s1, {KHMeta}, KAdminServer);
      var (s2, v2) := ServiceOf(e, s1, KAdminServer, ContainerServicePorts(spec, KAdminServer));
      if v2.Go? {
        NextService(e, s, s2, {KHMeta, KAdminServer}, KHStore);
        var (s3, v3) := ServiceOf(e, s2, KHStore, ContainerServicePorts(spec, KHStore));
        if v3.Go? {
          NextService(e, s, s3, {KHMeta, KAdminServer, KHStore}, KHServer);
        }
      }
    }
  }

  lemma ServicesBegin(e: Surroundings, s: State)
    ensures var (t, v) := HMetaServiceOf(e, s);
            ServicesSoFar(e, s, t, {}) && (v.Go? ==> ServicesSoFar(e, s, t, {KHMeta}))
  {
    hide ServiceOf, ServiceUpToDate;
    assert ServicesSoFar(e, s, s, {});
    if s.copy.spec.externalHMeta.None? { NextService(e, s, s, {}, KHMeta); }
  }

  /** The steps that only write status leave every owned object alone. */
  ghost predicate Rests(s: State, t: State) {
    SameOwned(s.w, t.w) && t.copy.spec == s.copy.spec && t.clock >= s.clock
  }

  lemma HMetaStatusRests(e: Surroundings, s: State)
    ensures Rests(s, HMetaStatusStep(e, s).0)
  {
    hide StatusWrite, Interfere, Running, AllReachable;
    var s1 := if s.copy.spec.externalHMeta.Some? then s else Call(e, s);
    CallOwns(e, s);
    var s2 := Call(e, s1);
    CallOwns(e, s1);
    StatusWriteOwns(e, WithCondition(s2.(copy := s2.copy.(nodes := TickOf(e, s2).nodes)), HMetaReady, true));
  }

  lemma BootstrapHStoreRests(e: Surroundings, s: State)
    ensures Rests(s, BootstrapHStoreStep(e, s).0)
  {
    hide BootstrapRecordPart, Interfere, Running;
    var s1 := Call(e, s);
    CallOwns(e, s);
    var ready := Running(e, s1, KHStore);
    var s2 := Call(e, s1);
    CallOwns(e, s1);
    if ready.Some? { BootstrapRecordRests(e, s2, ready.value); }
  }

  lemma BootstrapRecordRests(e: Surroundings, s: State, ready: nat)
    ensures Rests(s, BootstrapRecordPart(e, s, ready).0)
  {
    hide StatusWrite, MetadataReplication;
    var spec := s.copy.spec;
    var b := Bootstrap(MetadataReplication(spec), spec.hStore.replicas, spec.metadataReplicateAcross, ready);
    StatusWriteOwns(e, WithCondition(Store(s, s.w.(bootstraps := s.w.bootstraps + [b])), HStoreReady, true));
  }

  lemma BootstrapHServerRests(e: Surroundings, s: State)
    ensures Rests(s, BootstrapHServerStep(e, s).0)
  {
    hide StatusWrite, Interfere, Running;
    var s1 := Call(e, s);
    CallOwns(e, s);
    var s2 := Call(e, s1);
    CallOwns(e, s1);
    StatusWriteOwns(e, WithCondition(Store(s2, s2.w.(inits := s2.w.inits + 1)), HServerReady, true));
  }

  lemma ComponentRests(e: Surroundings, s: State, wanted: bool, kind: Kind, c: Condition)
    ensures Rests(s, ComponentPart(e, s, wanted, kind, c).0)
  {
    hide Interfere;
    CallOwns(e, s);
  }

  lemma StatusRests(e: Surroundings, s: State)
    ensures Rests(s, StatusStep(e, s).0)
  {
    hide StatusWrite, ComponentPart, AllReady, SameOwned;
    var gateway, console := s.copy.spec.gateway.Some?, s.copy.spec.console.Some?;
    var s1, s2 := ComponentPart(e, s, gateway, KGateway, GatewayReady).0, ComponentPart(e, s, console, KConsole, ConsoleReady).0;
    ComponentRests(e, s, gateway, KGateway, GatewayReady);
    ComponentRests(e, s, console, KConsole, ConsoleReady);
    ComponentRests(e, s1, console, KConsole, ConsoleReady);
    ComponentRests(e, s2, gateway, KGateway, GatewayReady);
    SameOwnedTransitive(s.w, s1.w, ComponentPart(e, s1, console, KConsole, ConsoleReady).0.w);
    SameOwnedTransitive(s.w, s2.w, ComponentPart(e, s2, gateway, KGateway, GatewayReady).0.w);
    var s3 := ComponentsPart(e, s).0;
    var asked := WithCondition(s3, Ready, AllReady(s3.copy));
    StatusWriteOwns(e, asked);
    SameOwnedTransitive(s.w, s3.w, StatusWrite(e, asked).0.w);
  }

  lemma HStoreSettles(e: Surroundings, s: State)
    ensures var (t, v) := HStoreStep(e, s);
            LeavesSettled(e, s, t, v, 5)
  {
    hide HStoreTemplate, WorkloadOf, Interfere, ShardCount;
    var s1 := Call(e, s);
    CallOwns(e, s);
    WorkloadSettles(e, s1, KHStore, HStoreTemplate(s1.copy.spec, ShardsSeen(e, s1)));
  }

  /** The gateway's desired value is read off the live HServer. */
  lemma GatewaySettles(e: Surroundings, s: State)
    ensures var (t, v) := GatewayStep(e, s);
            LeavesSettled(e, s, t, v, 9)
  {
    hide GatewayTemplate, Ensure, Interfere, LiveHServerPort;
    if s.copy.spec.gateway.Some? && IsTrue(s.copy.conditions, HServerReady) {
      var key := Workload(KHServer);
      var s1 := Call(e, s);
      CallOwns(e, s);
      var body := WorkloadBody(GatewayTemplate(s1.copy.spec.instance, s1.copy.spec.gateway.value, HServerPortSeen(e, s1)));
      EnsureOwns(e, s1, Workload(KGateway), body);
      var t := Ensure(e, s1, Workload(KGateway), body).0;
      if key in s.w.objects {
        LivePortOfBody(s.w.objects[key], s1.w.objects[key], s.copy.spec);
        LivePortOfBody(s1.w.objects[key], t.w.objects[key], s.copy.spec);
      }
    }
  }

  /** Every step settles its part and writes nothing if that part is settled. */
  lemma StepSettles(e: Surroundings, s: State, i: nat)
    requires i < |STEPS|
    ensures var (t, v) := RunStep(e, s, STEPS[i]);
            LeavesSettled(e, s, t, v, i)
  {
    hide LogDeviceStep, ServicesStep, HMetaStatusStep, HStoreStep, BootstrapHStoreStep, BootstrapHServerStep, GatewayStep, StatusStep, WorkloadOf,
         HMetaTemplate, AdminServerTemplate, HServerTemplate, ConsoleTemplate;
    var spec := s.copy.spec;
    match STEPS[i]
    case LogDevice => LogDeviceSettles(e, s);
    case Services => ServicesSettle(e, s);
    case AddHMeta => WorkloadSettles(e, s, KHMeta, HMetaTemplate(spec));
    case HMetaStatus => HMetaStatusRests(e, s);
    case AddAdminServer => WorkloadSettles(e, s, KAdminServer, AdminServerTemplate(spec));
    case AddHStore => HStoreSettles(e, s);
    case BootstrapHStore => BootstrapHStoreRests(e, s);
    case AddHServer => WorkloadSettles(e, s, KHServer, HServerTemplate(spec));
    case BootstrapHServer => BootstrapHServerRests(e, s);
    case AddGateway => GatewaySettles(e, s);
    case AddConsole => if spec.console.Some? { WorkloadSettles(e, s, KConsole, ConsoleTemplate(spec, spec.console.value)); }
    case UpdateStatus => StatusRests(e, s);
  }

  // ---------- a pass ----------

  /** The first `n` parts are in place for the resource. */
  ghost predicate Settled(e: Surroundings, w: World, spec: Spec, n: nat) {
    forall i :: 0 <= i < n ==> Part(e, w, spec, i)
  }

  lemma SettledFrame(e: Surroundings, w: World, v: World, spec: Spec, n: nat)
    requires Settled(e, w, spec, n) && n < |STEPS| && OnlyKeys(w, v, WrittenBy(n))
    ensures Settled(e, v, spec, n)
  {
    hide Part;
    forall i | 0 <= i < n ensures Part(e, v, spec, i) {
      assert WrittenBy(n) !! KeysOf(i);
      PartFrame(e, w, v, spec, i, WrittenBy(n));
    }
  }

  lemma SettledSame(e: Surroundings, w: World, v: World, spec: Spec, n: nat)
    requires Settled(e, w, spec, n) && SameOwned(w, v)
    ensures Settled(e, v, spec, n)
  {
    hide Part;
    forall i | 0 <= i < n ensures Part(e, v, spec, i) {
      PartFrame(e, w, v, spec, i, {});
    }
  }

  lemma {:induction false} DelayedIsNotDone(e: Surroundings, s: State, i: nat)
    requires i <= |STEPS|
    ensures RunFrom(e, s, i, true).1 != Done
    decreases |STEPS| - i
  {
    hide RunStep;
    if i < |STEPS| { DelayedIsNotDone(e, RunStep(e, s, STEPS[i]).0, i + 1); }
  }

  /** Time only goes forward. */
  lemma {:induction false} RunFromForward(e: Surroundings, s: State, i: nat, delayed: bool)
    requires i <= |STEPS|
    ensures RunFrom(e, s, i, delayed).0.clock >= s.clock && RunFrom(e, s, i, delayed).0.copy.spec == s.copy.spec
    decreases |STEPS| - i
  {
    hide RunStep, OnlyKeys, SameOwned, Part;
    if i < |STEPS| {
      var (t, v) := RunStep(e, s, STEPS[i]);
      StepSettles(e, s, i);
      RunFromForward(e, t, i + 1, delayed);
      RunFromForward(e, t, i + 1, true);
    }
  }

  lemma PassForward(e: Surroundings, s: State, view: Read)
    ensures Pass(e, s, view).0.clock > s.clock
  {
    hide RunFrom;
    RunFromForward(e, Begin(Call(e, s), view), 0, false);
  }

  lemma {:induction false} PassesForward(e: Surroundings, s: State, views: nat -> Read, n: nat)
    ensures Passes(e, s, views, n).clock >= s.clock
  {
    hide Pass;
    if n > 0 {
      PassesForward(e, s, views, n - 1);
      PassForward(e, Passes(e, s, views, n - 1), views(n - 1));
    }
  }

  /** A pass that is done leaves every part in place. */
  lemma {:induction false} RunFromSettles(e: Surroundings, s: State, i: nat)
    requires i <= |STEPS| && Settled(e, s.w, s.copy.spec, i)
    requires SwallowedReadsSucceed(e, s, RunFrom(e, s, i, false).0)
    ensures var (t, o) := RunFrom(e, s, i, false);
            o.Done? ==> Settled(e, t.w, s.copy.spec, |STEPS|)
    decreases |STEPS| - i
  {
    hide RunStep, OnlyKeys, SameOwned, Part;
    if i < |STEPS| {
      var (t, v) := RunStep(e, s, STEPS[i]);
      PartsNeeded(e, s.w, s.copy.spec, i);
      StepSettles(e, s, i);
      SettledFrame(e, s.w, t.w, s.copy.spec, i);
      if v.Go? {
        RunFromForward(e, t, i + 1, false);
        RunFromSettles(e, t, i + 1);
      } else {
        DelayedIsNotDone(e, t, i + 1);
      }
    }
  }

  lemma PartsNeeded(e: Surroundings, w: World, spec: Spec, n: nat)
    requires Settled(e, w, spec, n)
    ensures n >= 1 ==> w.nshards.Some?
    ensures n >= 8 ==> Workload(KHServer) in w.objects
  {
    hide HServerTemplate;
    assert n >= 1 ==> Part(e, w, spec, 0);
    assert n >= 8 ==> Part(e, w, spec, 7);
  }

  /** On a settled cluster a pass creates and updates nothing, however it ends. */
  lemma {:induction false} RunFromIdles(e: Surroundings, s: State, i: nat, delayed: bool)
    requires i <= |STEPS| && Settled(e, s.w, s.copy.spec, |STEPS|)
    requires SwallowedReadsSucceed(e, s, RunFrom(e, s, i, delayed).0)
    ensures SameOwned(s.w, RunFrom(e, s, i, delayed).0.w)
    decreases |STEPS| - i
  {
    hide RunStep, OnlyKeys, SameOwned, Part;
    if i == |STEPS| {
      SameOwnedItself(s.w);
    } else {
      var (t, v) := RunStep(e, s, STEPS[i]);
      PartsNeeded(e, s.w, s.copy.spec, |STEPS|);
      StepSettles(e, s, i);
      RunFromForward(e, s, i, delayed);
      var later := delayed || v.Stop?;
      RunFromForward(e, t, i + 1, later);
      SettledSame(e, s.w, t.w, s.copy.spec, |STEPS|);
      if v.Go? || (v.Stop? && v.requeue.delayed) {
        RunFromIdles(e, t, i + 1, later);
        SameOwnedTransitive(s.w, t.w, RunFrom(e, t, i + 1, later).0.w);
      }
    }
  }

  lemma SameOwnedItself(w: World)
    ensures SameOwned(w, w)
  {
  }

  /** The resource a pass works on. */
  function SpecOf(e: Surroundings, s: State, view: Read): Spec {
    Begin(Call(e, s), view).copy.spec
  }

  lemma PassIdles(e: Surroundings, s: State, view: Read, spec: Spec)
    requires Settled(e, s.w, spec, |STEPS|) && SwallowedReadsSucceed(e, s, Pass(e, s, view).0)
    requires view.Current? || view.Stale? ==> SpecOf(e, s, view) == spec
    ensures SameOwned(s.w, Pass(e, s, view).0.w)
  {
    hide RunFrom, SameOwned, Part;
    var s1 := Call(e, s);
    CallOwns(e, s);
    SettledSame(e, s.w, s1.w, spec, |STEPS|);
    if view.Current? || view.Stale? {
      RunFromIdles(e, Begin(s1, view), 0, false);
      SameOwnedTransitive(s.w, s1.w, Pass(e, s, view).0.w);
    }
  }

  /** Quiescence while the swallowed reads succeed: after a pass that is done, from whatever
      state, any number of further passes on the same resource create and update no ConfigMap,
      Service or workload, whatever other calls fail and whatever happens to the resource's
      version and the ready counts meanwhile. The exact form is in module Quiescence. */
  lemma {:induction false} Quiescent(e: Surroundings, s: State, view: Read, later: nat -> Read, n: nat)
    requires Pass(e, s, view).1.Done?
    requires SwallowedReadsSucceed(e, s, Passes(e, Pass(e, s, view).0, later, n))
    requires forall k | 0 <= k < n ::
               later(k).Missing? || later(k).ReadError?
               || SpecOf(e, Passes(e, Pass(e, s, view).0, later, k), later(k)) == SpecOf(e, s, view)
    ensures var w, v := Pass(e, s, view).0.w, Passes(e, Pass(e, s, view).0, later, n).w;
            && v.writes == w.writes && v.logDevice == w.logDevice && v.nshards == w.nshards
            && v.objects.Keys == w.objects.Keys
            && forall k :: k in w.objects ==> v.objects[k].hash == w.objects[k].hash && v.objects[k].body == w.objects[k].body
    decreases n
  {
    hide Pass, Begin, Part;
    var t, spec := Pass(e, s, view).0, SpecOf(e, s, view);
    PassForward(e, s, view);
    PassesForward(e, t, later, n);
    PassSettles(e, s, view);
    if n > 0 {
      var u := Passes(e, t, later, n - 1);
      PassesForward(e, t, later, n - 1);
      PassForward(e, u, later(n - 1));
      Quiescent(e, s, view, later, n - 1);
      SettledSame(e, t.w, u.w, spec, |STEPS|);
      PassIdles(e, u, later(n - 1), spec);
      SameOwnedTransitive(t.w, u.w, Pass(e, u, later(n - 1)).0.w);
    }
  }

  lemma PassSettles(e: Surroundings, s: State, view: Read)
    requires SwallowedReadsSucceed(e, s, Pass(e, s, view).0) && Pass(e, s, view).1.Done?
    ensures Settled(e, Pass(e, s, view).0.w, SpecOf(e, s, view), |STEPS|)
  {
    hide RunFrom, Part;
    RunFromSettles(e, Begin(Call(e, s), view), 0);
  }
}
