/** The reconciler as the source writes it: methods that change the API server and
    the operator's copy of the resource, each proved to do what module Steps says. */
module Operator {
  import opened Text
  import opened Ports
  import opened HMeta
  import opened Agreement
  import opened Api
  import opened HServer
  import opened Templates
  import opened Builders
  import opened Cluster
  import opened Steps

  /** The API server, the admin client and everything else a call reaches. */
  class ApiServer {
    const e: Surroundings
    var w: World
    var clock: nat
    ghost var log: seq<World>

    constructor (e: Surroundings, spec: Spec)
      ensures this.e == e && w == Fresh(spec).w && clock == 0 && log == [w]
    {
      this.e := e;
      w := World(spec, map[], map[], 1, None, None, map[], 0, [], 0, 0, 0);
      clock := 0;
      log := [World(spec, map[], map[], 1, None, None, map[], 0, [], 0, 0, 0)];
    }

    /** A call arrives, after whatever else has happened. */
    method Arrive() returns (tick: Tick)
      modifies this
      ensures tick == e.tape(old(clock))
      ensures w == Interfere(tick.env, old(w)) && clock == old(clock) + 1 && log == old(log) + [w]
    {
      tick := e.tape(clock);
      w := Interfere(tick.env, w);
      clock := clock + 1;
      log := log + [w];
    }

    method Commit(w': World)
      modifies this`w, this`log
      ensures w == w' && log == old(log) + [w]
    {
      w := w';
      log := log + [w];
    }
  }

  /** `hdb`: the copy of the resource one pass works on. */
  class Resource {
    var spec: Spec
    var conditions: map<Condition, bool>
    var nodes: map<string, HMetaNode>
    var version: nat

    constructor (copy: Copy)
      ensures spec == copy.spec && conditions == copy.conditions && nodes == copy.nodes && version == copy.version
    {
      spec, conditions, nodes, version := copy.spec, copy.conditions, copy.nodes, copy.version;
    }

    method SetCondition(c: Condition, status: bool)
      modifies this`conditions
      ensures conditions == old(conditions)[c := status]
    {
      conditions := conditions[c := status];
    }
  }

  class Reconciler {
    const api: ApiServer

    constructor (api: ApiServer)
      ensures this.api == api
    {
      this.api := api;
    }

    ghost function Now(hdb: Resource): State
      reads api, hdb
    {
      State(api.w, Copy(hdb.spec, hdb.conditions, hdb.nodes, hdb.version), api.clock, api.log)
    }

    // ---------- calls ----------

    method Call(hdb: Resource) returns (tick: Tick)
      modifies api
      ensures Now(hdb) == Cluster.Call(api.e, old(Now(hdb))) && tick == TickOf(api.e, Now(hdb))
    {
      tick := api.Arrive();
    }

    /** Get, compare the hashes, then create or update if they differ. */
    method CreateOrUpdate(hdb: Resource, key: Key, body: Body) returns (v: Verdict)
      modifies api
      ensures (Now(hdb), v) == Ensure(api.e, old(Now(hdb)), key, body)
    {
      hide Interfere;
      var hash := api.e.hash(key, body);
      var tick := Call(hdb);
      if tick.fault != NoFault { return Failing(ErrorOf(tick.fault)); }
      if key in api.w.objects && api.w.objects[key].hash == hash { return Go; }
      tick := Call(hdb);
      if tick.fault != NoFault { return Failing(ErrorOf(tick.fault)); }
      var ready := if key in api.w.objects then api.w.objects[key].ready else 0;
      api.Commit(api.w.(objects := api.w.objects[key := Object(hash, body, ready)], writes := api.w.writes + 1));
      return Go;
    }

    /** `r.Status().Update`. */
    method UpdateStatus(hdb: Resource) returns (err: Option<Error>)
      modifies api, hdb`version
      ensures (Now(hdb), err) == StatusWrite(api.e, old(Now(hdb)))
    {
      hide Interfere;
      var tick := Call(hdb);
      if tick.fault != NoFault { return Some(ErrorOf(tick.fault)); }
      if hdb.version != api.w.version { return Some(ConflictError); }
      api.Commit(api.w.(conditions := hdb.conditions, nodes := hdb.nodes, version := api.w.version + 1));
      hdb.version := api.w.version;
      return None;
    }

    // ---------- LogDeviceConfigReconciler ----------

    method ReconcileLogDeviceConfig(hdb: Resource) returns (v: Verdict)
      modifies api
      ensures (Now(hdb), v) == LogDeviceStep(api.e, old(Now(hdb)))
    {
      hide Interfere, Itoa, LogDeviceView;
      var tick := Call(hdb);
      if tick.fault != NoFault { return Failing(ErrorOf(tick.fault)); }
      if api.w.logDevice.None? {
        tick := Call(hdb);
        if tick.fault != NoFault { return Failing(ErrorOf(tick.fault)); }
        var config := ConfigFor(hdb.spec);
        api.Commit(api.w.(logDevice := Some(config), writes := api.w.writes + 1));
      }
      v := ReconcileNShards(hdb);
    }

    method ReconcileNShards(hdb: Resource) returns (v: Verdict)
      modifies api
      ensures (Now(hdb), v) == ShardConfigPart(api.e, old(Now(hdb)))
    {
      hide Interfere, Itoa;
      var tick := Call(hdb);
      if tick.shardReadFails || api.w.nshards.Some? { return Go; }
      tick := Call(hdb);
      if tick.fault != NoFault { return Failing(ErrorOf(tick.fault)); }
      api.Commit(api.w.(nshards := Some(Itoa(MinNShards(hdb.spec.nShards))), writes := api.w.writes + 1));
      return Go;
    }

    // ---------- addServices ----------

    method AddService(hdb: Resource, kind: Kind, ports: Result<seq<ServicePort>>) returns (v: Verdict)
      modifies api
      ensures (Now(hdb), v) == ServiceOf(api.e, old(Now(hdb)), kind, ports)
    {
      match ports
      case Ok(p) => v := CreateOrUpdate(hdb, Service(kind), ServiceBody(p));
      case Err => return Failing(OtherError);
      case Panic => return Crash;
    }

    method AddHMetaService(hdb: Resource) returns (v: Verdict)
      modifies api
      ensures (Now(hdb), v) == HMetaServiceOf(api.e, old(Now(hdb)))
    {
      hide ServiceOf;
      if hdb.spec.externalHMeta.Some? { return Go; }
      var ports := GetHMetaPorts(hdb.spec.hMeta.container);
      v := AddService(hdb, KHMeta, ports);
    }

    method ReconcileServices(hdb: Resource) returns (v: Verdict)
      modifies api
      ensures (Now(hdb), v) == ServicesStep(api.e, old(Now(hdb)))
    {
      hide ServiceOf, HMetaServiceOf, ServicePortsOf;
      v := AddHMetaService(hdb);
      if !v.Go? { return; }
      var ports := GetPorts(hdb.spec.adminServer.container, ADMIN_SERVER_PORTS);
      v := AddService(hdb, KAdminServer, ports);
      if !v.Go? { return; }
      ports := GetPorts(hdb.spec.hStore.container, HSTORE_PORTS);
      v := AddService(hdb, KHStore, ports);
      if !v.Go? { return; }
      ports := GetPorts(hdb.spec.hServer.container, [HSERVER_PORT, INTERNAL_PORT]);
      v := AddService(hdb, KHServer, ports);
    }

    // ---------- the workloads ----------

    method AddWorkload(hdb: Resource, kind: Kind, template: Result<Template>) returns (v: Verdict)
      modifies api
      ensures (Now(hdb), v) == WorkloadOf(api.e, old(Now(hdb)), kind, template)
    {
      match template
      case Ok(t) => v := CreateOrUpdate(hdb, Workload(kind), WorkloadBody(t));
      case Err => return Failing(OtherError);
      case Panic => return Crash;
    }

    method ReconcileHMeta(hdb: Resource) returns (v: Verdict)
      modifies api
      ensures (Now(hdb), v) == HMetaStep(api.e, old(Now(hdb)))
    {
      hide HMetaTemplate, WorkloadOf;
      if hdb.spec.externalHMeta.Some? { return Go; }
      var template := BuildHMeta(hdb.spec);
      v := AddWorkload(hdb, KHMeta, template);
    }

    method ReconcileAdminServer(hdb: Resource) returns (v: Verdict)
      modifies api
      ensures (Now(hdb), v) == AdminServerStep(api.e, old(Now(hdb)))
    {
      hide AdminServerTemplate, WorkloadOf;
      var template := BuildAdminServer(hdb.spec);
      v := AddWorkload(hdb, KAdminServer, template);
    }

    /** `getNShardFromExistingConfigMap`. */
    method GetNShard(hdb: Resource) returns (nShard: int32)
      modifies api
      ensures Now(hdb) == Cluster.Call(api.e, old(Now(hdb))) && nShard == ShardsSeen(api.e, Now(hdb))
    {
      nShard := hdb.spec.nShards;
      var tick := Call(hdb);
      if !tick.shardReadFails && api.w.nshards.Some? {
        var num := Atoi(api.w.nshards.value);
        if num.Some? {
          nShard := Int32(num.value);
        }
      }
    }

    method ReconcileHStore(hdb: Resource) returns (v: Verdict)
      modifies api
      ensures (Now(hdb), v) == HStoreStep(api.e, old(Now(hdb)))
    {
      hide HStoreTemplate, WorkloadOf, Cluster.Call, ShardsSeen;
      var nShard := GetNShard(hdb);
      var template := BuildHStore(hdb.spec, nShard);
      v := AddWorkload(hdb, KHStore, template);
    }

    method ReconcileHServer(hdb: Resource) returns (v: Verdict)
      modifies api
      ensures (Now(hdb), v) == HServerStep(api.e, old(Now(hdb)))
    {
      hide HServerTemplate, WorkloadOf;
      var template := BuildHServer(hdb.spec);
      v := AddWorkload(hdb, KHServer, template);
    }

    /** `findHServerPort`. */
    method FindHServerPort(hdb: Resource) returns (port: int)
      modifies api
      ensures Now(hdb) == Cluster.Call(api.e, old(Now(hdb))) && port == HServerPortSeen(api.e, Now(hdb))
    {
      var name := if hdb.spec.hServer.container.name == "" then "hserver" else hdb.spec.hServer.container.name;
      var tick := Call(hdb);
      var key := Workload(KHServer);
      if !tick.portReadFails && key in api.w.objects && api.w.objects[key].body.WorkloadBody? {
        var container := api.w.objects[key].body.template;
        if container.name == name {
          var found := FindPort(container.ports);
          if found.Some? { return found.value; }
        }
      }
      return HSERVER_PORT.containerPort;
    }

    method ReconcileGateway(hdb: Resource) returns (v: Verdict)
      modifies api
      ensures (Now(hdb), v) == GatewayStep(api.e, old(Now(hdb)))
    {
      hide GatewayTemplate, Cluster.Call, HServerPortSeen, Ensure;
      if hdb.spec.gateway.None? { return Go; }
      if !IsTrue(hdb.conditions, HServerReady) { return Waiting("wait for HServer nodes to be ready", 10); }
      var port := FindHServerPort(hdb);
      var template := BuildGateway(hdb.spec.instance, hdb.spec.gateway.value, port);
      v := CreateOrUpdate(hdb, Workload(KGateway), WorkloadBody(template));
    }

    method ReconcileConsole(hdb: Resource) returns (v: Verdict)
      modifies api
      ensures (Now(hdb), v) == ConsoleStep(api.e, old(Now(hdb)))
    {
      hide ConsoleTemplate, WorkloadOf;
      if hdb.spec.console.None? { return Go; }
      var template := BuildConsole(hdb.spec, hdb.spec.console.value);
      v := AddWorkload(hdb, KConsole, template);
    }

    // ---------- readiness ----------

    /** `checkPodRunningStatus`: the ready count, or none if there is an error. */
    method CheckPodRunningStatus(hdb: Resource, kind: Kind) returns (count: Option<nat>)
      modifies api
      ensures Now(hdb) == Cluster.Call(api.e, old(Now(hdb))) && count == Running(api.e, Now(hdb), kind)
    {
      var tick := Call(hdb);
      var key := Workload(kind);
      if tick.fault != NoFault || key !in api.w.objects || !api.w.objects[key].body.WorkloadBody? { return None; }
      var obj := api.w.objects[key];
      if obj.ready == 0 || obj.ready < obj.body.template.replicas { return None; }
      return Some(obj.ready);
    }

    /** `IsAllReady`, over the nodes in any order. */
    method IsAllReady(nodes: map<string, HMetaNode>) returns (r: bool)
      ensures r == AllReachable(nodes)
    {
      if |nodes| == 0 { return false; }
      var todo := nodes.Keys;
      while todo != {}
        invariant todo <= nodes.Keys
        invariant forall id :: id in nodes && id !in todo ==> nodes[id].reachable
        decreases todo
      {
        var id :| id in todo;
        if !nodes[id].reachable { return false; }
        todo := todo - {id};
      }
      return true;
    }

    /** The node list is rebuilt one node at a time. */
    method RecordNodes(hdb: Resource, nodes: map<string, HMetaNode>)
      modifies hdb`nodes
      ensures hdb.nodes == nodes
    {
      hdb.nodes := map[];
      var todo := nodes.Keys;
      while todo != {}
        invariant todo <= nodes.Keys
        invariant hdb.nodes == map id | id in nodes && id !in todo :: nodes[id]
        decreases todo
      {
        var id :| id in todo;
        hdb.nodes := hdb.nodes[id := nodes[id]];
        todo := todo - {id};
      }
    }

    method ReconcileHMetaStatus(hdb: Resource) returns (v: Verdict)
      modifies api, hdb
      ensures (Now(hdb), v) == HMetaStatusStep(api.e, old(Now(hdb)))
    {
      hide Cluster.Call, Running, HMetaClusterPart;
      if hdb.spec.externalHMeta.None? {
        var count := CheckPodRunningStatus(hdb, KHMeta);
        if count.None? { return Waiting("HMeta cluster isn't ready", 1); }
      }
      v := RecordHMetaCluster(hdb);
    }

    method RecordHMetaCluster(hdb: Resource) returns (v: Verdict)
      modifies api, hdb
      ensures (Now(hdb), v) == HMetaClusterPart(api.e, old(Now(hdb)))
    {
      hide Interfere, StatusWrite, AllReachable;
      var tick := Call(hdb);
      if tick.fault != NoFault { return Waiting("GetHMetaStatus failed", 1); }
      var ready := IsAllReady(tick.nodes);
      if !ready { return Waiting("wait for HMeta cluster to be ready", 1); }
      RecordNodes(hdb, tick.nodes);
      hdb.SetCondition(HMetaReady, true);
      var err := UpdateStatus(hdb);
      if err.Some? { return Failing(err.value); }
      return Go;
    }

    method GetMetadataReplication(spec: Spec) returns (r: int32)
      ensures r == MetadataReplication(spec)
    {
      if spec.metadataReplicateAcross.None? || spec.metadataReplicateAcross.value > spec.hStore.replicas {
        r := if spec.hStore.replicas <= RECOMMENDED then spec.hStore.replicas else RECOMMENDED;
      } else {
        r := spec.metadataReplicateAcross.value;
      }
    }

    method ReconcileBootstrapHStore(hdb: Resource) returns (v: Verdict)
      modifies api, hdb
      ensures (Now(hdb), v) == BootstrapHStoreStep(api.e, old(Now(hdb)))
    {
      hide Interfere, BootstrapRecordPart, Running;
      if IsTrue(hdb.conditions, HStoreReady) { return Go; }
      var count := CheckPodRunningStatus(hdb, KHStore);
      if count.None? { return Waiting("HStore cluster isn't ready", 1); }
      var tick := Call(hdb);
      if tick.fault != NoFault { return Waiting("bootstrap failed", 5); }
      v := RecordBootstrap(hdb, count.value);
    }

    /** What follows a successful `nodes-config bootstrap`. */
    method RecordBootstrap(hdb: Resource, ready: nat) returns (v: Verdict)
      modifies api, hdb
      ensures (Now(hdb), v) == BootstrapRecordPart(api.e, old(Now(hdb)), ready)
    {
      hide StatusWrite, MetadataReplication;
      var replication := GetMetadataReplication(hdb.spec);
      var b := Bootstrap(replication, hdb.spec.hStore.replicas, hdb.spec.metadataReplicateAcross, ready);
      api.Commit(api.w.(bootstraps := api.w.bootstraps + [b]));
      hdb.SetCondition(HStoreReady, true);
      var err := UpdateStatus(hdb);
      if err.Some? {
        api.Commit(api.w.(lostBootstraps := api.w.lostBootstraps + 1));
        return Failing(err.value);
      }
      return Waiting("", 1);
    }

    method ReconcileBootstrapHServer(hdb: Resource) returns (v: Verdict)
      modifies api, hdb
      ensures (Now(hdb), v) == BootstrapHServerStep(api.e, old(Now(hdb)))
    {
      hide Interfere, InitRecordPart, Running;
      if IsTrue(hdb.conditions, HServerReady) { return Go; }
      var count := CheckPodRunningStatus(hdb, KHServer);
      if count.None? { return Waiting("HServer cluster isn't ready", 1); }
      var tick := Call(hdb);
      if tick.fault != NoFault { return Waiting("init failed", 5); }
      v := RecordInit(hdb);
    }

    /** What follows a successful `server init`. */
    method RecordInit(hdb: Resource) returns (v: Verdict)
      modifies api, hdb
      ensures (Now(hdb), v) == InitRecordPart(api.e, old(Now(hdb)))
    {
      hide StatusWrite;
      api.Commit(api.w.(inits := api.w.inits + 1));
      hdb.SetCondition(HServerReady, true);
      var err := UpdateStatus(hdb);
      if err.Some? {
        api.Commit(api.w.(lostInits := api.w.lostInits + 1));
        return Failing(err.value);
      }
      return Go;
    }

    // ---------- updateStatus ----------

    method CheckComponent(hdb: Resource, wanted: bool, kind: Kind, c: Condition) returns (v: Verdict)
      modifies api, hdb`conditions
      ensures (Now(hdb), v) == ComponentPart(api.e, old(Now(hdb)), wanted, kind, c)
    {
      hide Interfere;
      if !wanted { return Go; }
      var tick := Call(hdb);
      if tick.fault != NoFault { return Failing(ErrorOf(tick.fault)); }
      if Workload(kind) !in api.w.objects { return Failing(OtherError); }
      hdb.SetCondition(c, true);
      return Go;
    }

    /** `checkComponentsReady`: the two components in either order. */
    method CheckComponentsReady(hdb: Resource) returns (v: Verdict)
      modifies api, hdb`conditions
      ensures (Now(hdb), v) == ComponentsPart(api.e, old(Now(hdb)))
    {
      hide ComponentPart;
      var gateway, console := hdb.spec.gateway.Some?, hdb.spec.console.Some?;
      if api.e.tape(api.clock).gatewayFirst {
        v := CheckComponent(hdb, gateway, KGateway, GatewayReady);
        if !v.Go? { return; }
        v := CheckComponent(hdb, console, KConsole, ConsoleReady);
      } else {
        v := CheckComponent(hdb, console, KConsole, ConsoleReady);
        if !v.Go? { return; }
        v := CheckComponent(hdb, gateway, KGateway, GatewayReady);
      }
    }

    /** `checkAllReady`. */
    method CheckAllReady(hdb: Resource)
      modifies hdb`conditions
      ensures Now(hdb) == WithCondition(old(Now(hdb)), Ready, AllReady(old(Now(hdb)).copy))
    {
      var conditionList := [HMetaReady, HStoreReady, HServerReady];
      if hdb.spec.console.Some? { conditionList := conditionList + [ConsoleReady]; }
      if hdb.spec.gateway.Some? { conditionList := conditionList + [GatewayReady]; }
      ListedReady(hdb, conditionList);
      for i := 0 to |conditionList|
        invariant hdb.conditions == old(hdb.conditions)
        invariant forall j :: 0 <= j < i ==> IsTrue(hdb.conditions, conditionList[j])
      {
        if !IsTrue(hdb.conditions, conditionList[i]) {
          hdb.SetCondition(Ready, false);
          return;
        }
      }
      hdb.SetCondition(Ready, true);
    }

    lemma ListedReady(hdb: Resource, list: seq<Condition>)
      requires list == [HMetaReady, HStoreReady, HServerReady]
                       + (if hdb.spec.console.Some? then [ConsoleReady] else []) + (if hdb.spec.gateway.Some? then [GatewayReady] else [])
      ensures AllReady(Now(hdb).copy) <==> forall j :: 0 <= j < |list| ==> IsTrue(hdb.conditions, list[j])
    {
      assert list[0] == HMetaReady && list[1] == HStoreReady && list[2] == HServerReady;
      assert hdb.spec.console.Some? ==> list[3] == ConsoleReady;
      assert hdb.spec.gateway.Some? ==> list[|list| - 1] == GatewayReady;
    }

    method ReconcileStatus(hdb: Resource) returns (v: Verdict)
      modifies api, hdb
      ensures (Now(hdb), v) == StatusStep(api.e, old(Now(hdb)))
    {
      hide ComponentsPart, AllReady, StatusWrite;
      v := CheckComponentsReady(hdb);
      if !v.Go? { return; }
      CheckAllReady(hdb);
      var err := UpdateStatus(hdb);
      if err.Some? { return Failing(err.value); }
      if !IsTrue(hdb.conditions, Ready) { return Stop(Requeue(0, None, "HStreamDB is not ready", true)); }
      return Go;
    }

    // ---------- the pass ----------

    method ReconcileStep(hdb: Resource, step: Step) returns (v: Verdict)
      modifies api, hdb
      ensures (Now(hdb), v) == RunStep(api.e, old(Now(hdb)), step)
    {
      hide LogDeviceStep, ServicesStep, HMetaStep, HMetaStatusStep, AdminServerStep, HStoreStep, BootstrapHStoreStep, HServerStep,
           BootstrapHServerStep, GatewayStep, ConsoleStep, StatusStep;
      match step
      case LogDevice => v := ReconcileLogDeviceConfig(hdb);
      case Services => v := ReconcileServices(hdb);
      case AddHMeta => v := ReconcileHMeta(hdb);
      case HMetaStatus => v := ReconcileHMetaStatus(hdb);
      case AddAdminServer => v := ReconcileAdminServer(hdb);
      case AddHStore => v := ReconcileHStore(hdb);
      case BootstrapHStore => v := ReconcileBootstrapHStore(hdb);
      case AddHServer => v := ReconcileHServer(hdb);
      case BootstrapHServer => v := ReconcileBootstrapHServer(hdb);
      case AddGateway => v := ReconcileGateway(hdb);
      case AddConsole => v := ReconcileConsole(hdb);
      case UpdateStatus => v := ReconcileStatus(hdb);
    }

    /** `processRequeue`. */
    method ProcessRequeue(requeue: Requeue) returns (o: Steps.Outcome)
      ensures o == Processed(requeue)
    {
      var err, delay := requeue.error, requeue.delay;
      if err == Some(ConflictError) {
        err := None;
        if delay == 0 { delay := 1; }
      }
      if err.Some? {
        assert err.value.OtherError?;
        return Failed(err.value);
      }
      return RequeueAfter(delay);
    }

    /** `subReconcile`. */
    method SubReconcile(hdb: Resource) returns (o: Steps.Outcome)
      modifies api, hdb
      ensures (Now(hdb), o) == RunFrom(api.e, old(Now(hdb)), 0, false)
    {
      hide RunStep;
      var delayedRequeue := false;
      var i := 0;
      while i < |STEPS|
        invariant 0 <= i <= |STEPS|
        invariant RunFrom(api.e, Now(hdb), i, delayedRequeue) == RunFrom(api.e, old(Now(hdb)), 0, false)
      {
        var v := ReconcileStep(hdb, STEPS[i]);
        match v {
          case Go =>
          case Stop(requeue) =>
            if !requeue.delayed {
              o := ProcessRequeue(requeue);
              return;
            }
            delayedRequeue := true;
          case Crash => return Crashed;
        }
        i := i + 1;
      }
      if delayedRequeue { return RequeueAfter(1); }
      return Done;
    }

    /** `r.Get(…, hdb)` of the resource itself: what was read replaces what `hdb` held. */
    method Get(hdb: Resource, read: Read)
      requires read.Current? || read.Stale?
      modifies hdb
      ensures Now(hdb) == Begin(old(Now(hdb)), read)
    {
      if read.Stale? && read.copy.version < api.w.version {
        hdb.spec, hdb.conditions, hdb.nodes, hdb.version := read.copy.spec, read.copy.conditions, read.copy.nodes, read.copy.version;
      } else {
        hdb.spec, hdb.conditions, hdb.nodes, hdb.version := api.w.spec, api.w.conditions, api.w.nodes, api.w.version;
      }
    }

    /** `Reconcile`. */
    method Reconcile(hdb: Resource, read: Read) returns (o: Steps.Outcome)
      modifies api, hdb
      ensures (Now(hdb), o) == Pass(api.e, old(Now(hdb)), read)
    {
      hide RunFrom, Cluster.Call, Begin;
      var tick := Call(hdb);
      match read
      case Missing => return Absent;
      case ReadError => return Failed(OtherError);
      case _ =>
        Get(hdb, read);
        o := SubReconcile(hdb);
    }

    /** The worker: one pass after another, each from whatever its first read returns. */
    method Work(hdb: Resource, seen: seq<Read>, ghost views: nat -> Read)
      requires forall i :: 0 <= i < |seen| ==> seen[i] == views(i)
      modifies api, hdb
      ensures Now(hdb) == Passes(api.e, old(Now(hdb)), views, |seen|)
    {
      hide Pass;
      for i := 0 to |seen|
        invariant Now(hdb) == Passes(api.e, old(Now(hdb)), views, i)
      {
        var o := Reconcile(hdb, seen[i]);
      }
    }
  }
}
