/** The twelve sub-reconcilers of internal/controller as state transformers, and one
    pass over them (internal/controller/hstreamdb_controller.go). */
module Steps {
  import opened Text
  import opened Ports
  import opened HMeta
  import opened Agreement
  import opened Api
  import opened HServer
  import opened Templates
  import opened Cluster

  predicate IsTrue(conditions: map<Condition, bool>, c: Condition) { c in conditions && conditions[c] }

  /** The copy with a condition set. */
  function WithCondition(s: State, c: Condition, status: bool): State {
    s.(copy := s.copy.(conditions := s.copy.conditions[c := status]))
  }

  // ---------- LogDevice and shard configuration ----------

  ghost function LogDeviceStep(e: Surroundings, s0: State): (State, Verdict) {
    var s := Call(e, s0);
    if FaultOf(e, s) != NoFault then (s, Failing(ErrorOf(FaultOf(e, s))))
    else if s.w.logDevice.Some? then ShardConfigPart(e, s)
    else LogDeviceCreatePart(e, s)
  }

  /** The config written from the resource as the copy shows it. */
  function ConfigFor(spec: Spec): LogDeviceConfig {
    LogDeviceConfig(spec.hStore.replicas,
                    LogDeviceView(spec.instance, spec.externalHMeta, spec.hMeta.container.args),
                    spec.logDeviceConfig)
  }

  function LogDeviceCreatePart(e: Surroundings, s: State): (State, Verdict) {
    var s2 := Call(e, s);
    if FaultOf(e, s2) != NoFault then (s2, Failing(ErrorOf(FaultOf(e, s2))))
    else ShardConfigPart(e, Store(s2, s2.w.(logDevice := Some(ConfigFor(s2.copy.spec)), writes := s2.w.writes + 1)))
  }

  /** The nshards ConfigMap is created once; a failed read is swallowed. */
  function ShardConfigPart(e: Surroundings, s0: State): (State, Verdict) {
    var s := Call(e, s0);
    if TickOf(e, s).shardReadFails || s.w.nshards.Some? then (s, Go)
    else
      var s2 := Call(e, s);
      if FaultOf(e, s2) != NoFault then (s2, Failing(ErrorOf(FaultOf(e, s2))))
      else (Store(s2, s2.w.(nshards := Some(Itoa(MinNShards(s.copy.spec.nShards))), writes := s2.w.writes + 1)), Go)
  }

  // ---------- Services ----------

  function ServiceOf(e: Surroundings, s: State, kind: Kind, ports: Result<seq<ServicePort>>): (State, Verdict) {
    match ports
    case Ok(p) => Ensure(e, s, Service(kind), ServiceBody(p))
    case Err => (s, Failing(OtherError))
    case Panic => (s, Crash)
  }

  function HMetaServiceOf(e: Surroundings, s: State): (State, Verdict) {
    var spec := s.copy.spec;
    if spec.externalHMeta.Some? then (s, Go)
    else ServiceOf(e, s, KHMeta, HMetaServicePorts(spec.hMeta.container.args, spec.hMeta.container.ports))
  }

  function ServicesStep(e: Surroundings, s: State): (State, Verdict) {
    var spec := s.copy.spec;
    var (s1, v1) := HMetaServiceOf(e, s);
    if !v1.Go? then (s1, v1) else
    var (s2, v2) := ServiceOf(e, s1, KAdminServer,
                              ServicePortsOf(spec.adminServer.container.args, spec.adminServer.container.ports, ADMIN_SERVER_PORTS));
    if !v2.Go? then (s2, v2) else
    var (s3, v3) := ServiceOf(e, s2, KHStore,
                              ServicePortsOf(spec.hStore.container.args, spec.hStore.container.ports, HSTORE_PORTS));
    if !v3.Go? then (s3, v3) else
    ServiceOf(e, s3, KHServer, ServicePorts(spec.hServer.container))
  }

  // ---------- workloads ----------

  function WorkloadOf(e: Surroundings, s: State, kind: Kind, template: Result<Template>): (State, Verdict) {
    match template
    case Ok(t) => Ensure(e, s, Workload(kind), WorkloadBody(t))
    case Err => (s, Failing(OtherError))
    case Panic => (s, Crash)
  }

  ghost function HMetaStep(e: Surroundings, s: State): (State, Verdict) {
    if s.copy.spec.externalHMeta.Some? then (s, Go) else WorkloadOf(e, s, KHMeta, HMetaTemplate(s.copy.spec))
  }

  ghost function AdminServerStep(e: Surroundings, s: State): (State, Verdict) {
    WorkloadOf(e, s, KAdminServer, AdminServerTemplate(s.copy.spec))
  }

  /** The shard count a stored text stands for. */
  function ShardCount(text: string, otherwise: int32): int32 {
    match Atoi(text)
    case Some(n) => Int32(n)
    case None => otherwise
  }

  /** The recorded shard count, or the resource's if the record cannot be read. */
  function ShardsSeen(e: Surroundings, s: State): int32
    requires s.clock > 0
  {
    if TickOf(e, s).shardReadFails || s.w.nshards.None? then s.copy.spec.nShards
    else ShardCount(s.w.nshards.value, s.copy.spec.nShards)
  }

  ghost function HStoreStep(e: Surroundings, s0: State): (State, Verdict) {
    var s := Call(e, s0);
    WorkloadOf(e, s, KHStore, HStoreTemplate(s.copy.spec, ShardsSeen(e, s)))
  }

  ghost function HServerStep(e: Surroundings, s: State): (State, Verdict) {
    WorkloadOf(e, s, KHServer, HServerTemplate(s.copy.spec))
  }

  /** `findHServerPort`, read off the live StatefulSet; a failed read leaves the default. */
  function HServerPortSeen(e: Surroundings, s: State): int
    requires s.clock > 0
  {
    var key := Workload(KHServer);
    if !TickOf(e, s).portReadFails && key in s.w.objects then LiveHServerPort(s.w.objects[key], s.copy.spec)
    else HSERVER_PORT.containerPort
  }

  function LiveHServerPort(o: Object, spec: Spec): int {
    if o.body.WorkloadBody? && o.body.template.name == NameOr(spec.hServer.container.name, "hserver")
       && FirstNamedPort(o.body.template.ports).Some?
    then FirstNamedPort(o.body.template.ports).value
    else HSERVER_PORT.containerPort
  }

  function GatewayStep(e: Surroundings, s0: State): (State, Verdict) {
    match s0.copy.spec.gateway
    case None => (s0, Go)
    case Some(g) =>
      if !IsTrue(s0.copy.conditions, HServerReady) then (s0, Waiting("wait for HServer nodes to be ready", 10))
      else
        var s := Call(e, s0);
        Ensure(e, s, Workload(KGateway), WorkloadBody(GatewayTemplate(s.copy.spec.instance, g, HServerPortSeen(e, s))))
  }

  function ConsoleStep(e: Surroundings, s: State): (State, Verdict) {
    match s.copy.spec.console
    case None => (s, Go)
    case Some(c) => WorkloadOf(e, s, KConsole, ConsoleTemplate(s.copy.spec, c))
  }

  // ---------- readiness ----------

  /** `checkPodRunningStatus`: the ready count, if the workload is there and has enough ready replicas. */
  function Running(e: Surroundings, s: State, kind: Kind): Option<nat>
    requires s.clock > 0
  {
    var key := Workload(kind);
    if FaultOf(e, s) != NoFault || key !in s.w.objects || !s.w.objects[key].body.WorkloadBody? then None
    else
      var o := s.w.objects[key];
      if o.ready == 0 || o.ready < o.body.template.replicas then None else Some(o.ready)
  }

  /** `IsAllReady`. */
  predicate AllReachable(nodes: map<string, HMetaNode>) {
    |nodes| > 0 && forall id :: id in nodes ==> nodes[id].reachable
  }

  function HMetaStatusStep(e: Surroundings, s: State): (State, Verdict) {
    if s.copy.spec.externalHMeta.Some? then HMetaClusterPart(e, s)
    else
      var s1 := Call(e, s);
      if Running(e, s1, KHMeta).None? then (s1, Waiting("HMeta cluster isn't ready", 1)) else HMetaClusterPart(e, s1)
  }

  /** Asks HMeta for its nodes, then writes the status whether or not it changed. */
  function HMetaClusterPart(e: Surroundings, s0: State): (State, Verdict) {
    var s := Call(e, s0);
    if FaultOf(e, s) != NoFault then (s, Waiting("GetHMetaStatus failed", 1))
    else if !AllReachable(TickOf(e, s).nodes) then (s, Waiting("wait for HMeta cluster to be ready", 1))
    else
      var ready := WithCondition(s.(copy := s.copy.(nodes := TickOf(e, s).nodes)), HMetaReady, true);
      var (s2, err) := StatusWrite(e, ready);
      (s2, if err.Some? then Failing(err.value) else Go)
  }

  const RECOMMENDED: int32 := 3

  /** `GetRecommendedLogReplicaAcross`. */
  function Recommended(spec: Spec): int32 {
    if spec.hStore.replicas <= RECOMMENDED then spec.hStore.replicas else RECOMMENDED
  }

  function MetadataReplication(spec: Spec): int32 {
    if spec.metadataReplicateAcross.None? || spec.metadataReplicateAcross.value > spec.hStore.replicas
    then Recommended(spec)
    else spec.metadataReplicateAcross.value
  }

  function BootstrapHStoreStep(e: Surroundings, s: State): (State, Verdict) {
    if IsTrue(s.copy.conditions, HStoreReady) then (s, Go)
    else
      var s1 := Call(e, s);
      var ready := Running(e, s1, KHStore);
      if ready.None? then (s1, Waiting("HStore cluster isn't ready", 1))
      else
        var s2 := Call(e, s1);
        if FaultOf(e, s2) != NoFault then (s2, Waiting("bootstrap failed", 5))
        else BootstrapRecordPart(e, s2, ready.value)
  }

  /** After the successful call: record it, then delay before HServer is deployed. */
  function BootstrapRecordPart(e: Surroundings, s: State, ready: nat): (State, Verdict) {
    var spec := s.copy.spec;
    var b := Bootstrap(MetadataReplication(spec), spec.hStore.replicas, spec.metadataReplicateAcross, ready);
    var s3 := Store(s, s.w.(bootstraps := s.w.bootstraps + [b]));
    var (s4, err) := StatusWrite(e, WithCondition(s3, HStoreReady, true));
    if err.Some? then (Store(s4, s4.w.(lostBootstraps := s4.w.lostBootstraps + 1)), Failing(err.value))
    else (s4, Waiting("", 1))
  }

  function BootstrapHServerStep(e: Surroundings, s: State): (State, Verdict) {
    if IsTrue(s.copy.conditions, HServerReady) then (s, Go)
    else
      var s1 := Call(e, s);
      if Running(e, s1, KHServer).None? then (s1, Waiting("HServer cluster isn't ready", 1))
      else
        var s2 := Call(e, s1);
        if FaultOf(e, s2) != NoFault then (s2, Waiting("init failed", 5))
        else InitRecordPart(e, s2)
  }

  function InitRecordPart(e: Surroundings, s: State): (State, Verdict) {
    var s3 := Store(s, s.w.(inits := s.w.inits + 1));
    var (s4, err) := StatusWrite(e, WithCondition(s3, HServerReady, true));
    if err.Some? then (Store(s4, s4.w.(lostInits := s4.w.lostInits + 1)), Failing(err.value))
    else (s4, Go)
  }

  /** `checkComponentsReady` for one optional component. */
  function ComponentPart(e: Surroundings, s0: State, wanted: bool, kind: Kind, c: Condition): (State, Verdict) {
    if !wanted then (s0, Go)
    else
      var s := Call(e, s0);
      if FaultOf(e, s) != NoFault then (s, Failing(ErrorOf(FaultOf(e, s))))
      else if Workload(kind) !in s.w.objects then (s, Failing(OtherError))
      else (WithCondition(s, c, true), Go)
  }

  function ComponentsPart(e: Surroundings, s: State): (State, Verdict) {
    var gateway, console := s.copy.spec.gateway.Some?, s.copy.spec.console.Some?;
    if e.tape(s.clock).gatewayFirst then
      var (s1, v) := ComponentPart(e, s, gateway, KGateway, GatewayReady);
      if !v.Go? then (s1, v) else ComponentPart(e, s1, console, KConsole, ConsoleReady)
    else
      var (s1, v) := ComponentPart(e, s, console, KConsole, ConsoleReady);
      if !v.Go? then (s1, v) else ComponentPart(e, s1, gateway, KGateway, GatewayReady)
  }

  /** `checkAllReady`. */
  predicate AllReady(copy: Copy) {
    && IsTrue(copy.conditions, HMetaReady) && IsTrue(copy.conditions, HStoreReady) && IsTrue(copy.conditions, HServerReady)
    && (copy.spec.console.Some? ==> IsTrue(copy.conditions, ConsoleReady))
    && (copy.spec.gateway.Some? ==> IsTrue(copy.conditions, GatewayReady))
  }

  function StatusStep(e: Surroundings, s: State): (State, Verdict) {
    var (s1, v) := ComponentsPart(e, s);
    if !v.Go? then (s1, v)
    else
      var (s2, err) := StatusWrite(e, WithCondition(s1, Ready, AllReady(s1.copy)));
      if err.Some? then (s2, Failing(err.value))
      else if !IsTrue(s2.copy.conditions, Ready) then (s2, Stop(Requeue(0, None, "HStreamDB is not ready", true)))
      else (s2, Go)
  }

  // ---------- one pass ----------

  datatype Step = LogDevice | Services | AddHMeta | HMetaStatus | AddAdminServer | AddHStore | BootstrapHStore
                | AddHServer | BootstrapHServer | AddGateway | AddConsole | UpdateStatus

  const STEPS: seq<Step> :=
    [LogDevice, Services, AddHMeta, HMetaStatus, AddAdminServer, AddHStore, BootstrapHStore,
     AddHServer, BootstrapHServer, AddGateway, AddConsole, UpdateStatus]

  ghost function RunStep(e: Surroundings, s: State, step: Step): (State, Verdict) {
    match step
    case LogDevice => LogDeviceStep(e, s)
    case Services => ServicesStep(e, s)
    case AddHMeta => HMetaStep(e, s)
    case HMetaStatus => HMetaStatusStep(e, s)
    case AddAdminServer => AdminServerStep(e, s)
    case AddHStore => HStoreStep(e, s)
    case BootstrapHStore => BootstrapHStoreStep(e, s)
    case AddHServer => HServerStep(e, s)
    case BootstrapHServer => BootstrapHServerStep(e, s)
    case AddGateway => GatewayStep(e, s)
    case AddConsole => ConsoleStep(e, s)
    case UpdateStatus => StatusStep(e, s)
  }

  /** How a pass ends: an error, a requeue after some seconds, done, a panic, or nothing to reconcile. */
  datatype Outcome = Failed(error: Error) | RequeueAfter(seconds: nat) | Done | Crashed | Absent

  /** `processRequeue`: a conflict becomes a requeue after at least a second. */
  function Processed(r: Requeue): Outcome {
    if r.error == Some(OtherError) then Failed(OtherError)
    else if r.error == Some(ConflictError) && r.delay == 0 then RequeueAfter(1)
    else RequeueAfter(r.delay)
  }

  /** `subReconcile` from step `i` on; `delayed` is whether some step asked for a requeue at the end. */
  ghost function RunFrom(e: Surroundings, s: State, i: nat, delayed: bool): (State, Outcome)
    requires i <= |STEPS|
    decreases |STEPS| - i
  {
    if i == |STEPS| then (s, if delayed then RequeueAfter(1) else Done)
    else
      var (s1, v) := RunStep(e, s, STEPS[i]);
      match v
      case Go => RunFrom(e, s1, i + 1, delayed)
      case Stop(r) => if r.delayed then RunFrom(e, s1, i + 1, true) else (s1, Processed(r))
      case Crash => (s1, Crashed)
  }

  /** What the first read of a pass returns. A stale copy is any copy with an older version. */
  datatype Read = Current | Stale(copy: Copy) | Missing | ReadError

  function Begin(s: State, read: Read): State {
    if read.Stale? && read.copy.version < s.w.version then s.(copy := read.copy)
    else s.(copy := Copy(s.w.spec, s.w.conditions, s.w.nodes, s.w.version))
  }

  /** `Reconcile`. */
  ghost function Pass(e: Surroundings, s0: State, read: Read): (State, Outcome) {
    var s := Call(e, s0);
    match read
    case Missing => (s, Absent)
    case ReadError => (s, Failed(OtherError))
    case _ => RunFrom(e, Begin(s, read), 0, false)
  }

  /** The state after `n` passes. */
  ghost function Passes(e: Surroundings, s: State, views: nat -> Read, n: nat): State {
    if n == 0 then s else Pass(e, Passes(e, s, views, n - 1), views(n - 1)).0
  }

  /** A resource just created, before the operator saw it. */
  function Fresh(spec: Spec): State {
    var w := World(spec, map[], map[], 1, None, None, map[], 0, [], 0, 0, 0);
    State(w, Copy(spec, map[], map[], 1), 0, [w])
  }
}
