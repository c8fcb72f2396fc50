/** Every sub-reconciler keeps the invariants, hence every pass and every run. */
module Runs {
  import opened Text
  import opened Ports
  import opened Agreement
  import opened Api
  import opened HServer
  import opened Templates
  import opened Cluster
  import opened Steps
  import opened Safety

  // ---------- where a pass stands ----------

  /** The copy is not newer than the store; if it is current it says what the store says. */
  ghost predicate Linked(s: State) {
    && s.copy.version <= s.w.version
    && (s.copy.version == s.w.version ==>
          s.copy.spec == s.w.spec && s.copy.conditions == s.w.conditions && s.copy.nodes == s.w.nodes)
  }

  /** The copy's conditions are the stored ones, whatever happens to the spec meanwhile. */
  ghost predicate Fenced(s: State) {
    && s.copy.version <= s.w.version
    && (s.copy.version == s.w.version ==> s.copy.spec == s.w.spec)
    && s.copy.conditions == s.w.conditions && s.copy.nodes == s.w.nodes && IsTrue(s.w.conditions, HMetaReady)
  }

  /** What holds before step `i` of a pass, for whatever copy the pass started from. */
  ghost predicate Stage(e: Surroundings, s: State, i: nat) {
    && Good(e, s) && Even(s.w)
    && (i >= 1 && ShardReadsSucceed(e) ==> s.w.nshards.Some?)
    && (i < 4 ==> Linked(s))
    && (i >= 4 ==> Fenced(s))
    && (i >= 7 ==> IsTrue(s.w.conditions, HStoreReady))
    && (i >= 9 ==> IsTrue(s.w.conditions, HServerReady))
    && (i >= 12 ==> IsTrue(s.w.conditions, Ready))
  }

  /** A stop that is neither silent nor postponed, nor the gateway's wait. */
  predicate ProperStop(r: Requeue) {
    !r.delayed && (r.error.Some? || 0 < r.delay < 10)
  }

  ghost predicate StepKept(e: Surroundings, s: State, t: State, v: Verdict, i: nat) {
    && Good(e, t) && Even(t.w) && s.log <= t.log
    && t.copy.spec == s.copy.spec
    && (v.Go? ==> Stage(e, t, i + 1))
    && (v.Stop? ==> ProperStop(v.requeue))
  }

  lemma CarriedStage(e: Surroundings, s: State, t: State, i: nat)
    requires Stage(e, s, i) && Carried(s, t) && Good(e, t)
    ensures Stage(e, t, i)
  {
  }

  /** A step that leaves copy and stored status alone moves on to the next stage, unless that needs more. */
  lemma CarriedNext(e: Surroundings, s: State, t: State, i: nat)
    requires Stage(e, s, i) && Carried(s, t) && Good(e, t)
    requires i == 0 && ShardReadsSucceed(e) ==> t.w.nshards.Some?
    requires i !in {3, 6, 8, 11}
    ensures Stage(e, t, i + 1)
  {
  }

  // ---------- objects ----------

  lemma EnsureStep(e: Surroundings, s: State, key: Key, body: Body, i: nat)
    requires Stage(e, s, i) && MayWrite(e, s.w, key, body) && i !in {0, 3, 6, 8, 11}
    ensures var (t, v) := Ensure(e, s, key, body);
            StepKept(e, s, t, v, i) && Carried(s, t)
  {
    var (t, v) := Ensure(e, s, key, body);
    EnsureKeeps(e, s, key, body);
    CarriedStage(e, s, t, i);
    CarriedNext(e, s, t, i);
  }

  lemma WorkloadStep(e: Surroundings, s: State, kind: Kind, template: Result<Template>, i: nat)
    requires Stage(e, s, i) && i !in {0, 3, 6, 8, 11}
    requires GateOpen(s.w.conditions, Workload(kind)) && kind != KHStore
    ensures var (t, v) := WorkloadOf(e, s, kind, template);
            StepKept(e, s, t, v, i) && Carried(s, t)
  {
    if template.Ok? { EnsureStep(e, s, Workload(kind), WorkloadBody(template.value), i); }
  }

  lemma ServiceStep(e: Surroundings, s: State, kind: Kind, ports: Result<seq<ServicePort>>)
    requires Stage(e, s, 1)
    ensures var (t, v) := ServiceOf(e, s, kind, ports);
            Carried(s, t) && Stage(e, t, 1) && (v.Stop? ==> ProperStop(v.requeue))
  {
    if ports.Ok? {
      var (t, v) := Ensure(e, s, Service(kind), ServiceBody(ports.value));
      EnsureKeeps(e, s, Service(kind), ServiceBody(ports.value));
      CarriedStage(e, s, t, 1);
    }
  }

  // ---------- status writes ----------

  /** If the copy is current, its conditions may become the stored ones. */
  ghost predicate CanRecord(s: State) {
    && s.copy.version <= s.w.version
    && (s.copy.version == s.w.version ==>
          && s.copy.spec == s.w.spec && Ordered(s.copy.conditions) && Counted(s.copy.conditions, s.w)
          && Meant(s.copy.conditions, s.copy.nodes, s.w.objects)
          && forall c :: IsTrue(s.w.conditions, c) ==> IsTrue(s.copy.conditions, c))
  }

  lemma RecordKeeps(e: Surroundings, s: State)
    requires Good(e, s) && CanRecord(s) && s.copy.version == s.w.version
    ensures var w := s.w.(conditions := s.copy.conditions, nodes := s.copy.nodes, version := s.w.version + 1);
            Good(e, Store(s, w))
  {
    var w := s.w.(conditions := s.copy.conditions, nodes := s.copy.nodes, version := s.w.version + 1);
    assert Inv(e, s.log[|s.log| - 1]);
    forall k | k in w.objects ensures GateOpen(w.conditions, k) {
      assert GateOpen(s.w.conditions, k);
    }
    Extend(e, s, Store(s, w));
  }

  lemma CanRecordStill(s: State, t: State)
    requires Carried(s, t) && CanRecord(s)
    ensures CanRecord(t)
    ensures t.copy.version == t.w.version ==> s.copy.version == s.w.version && s.copy.spec == s.w.spec && t.copy.spec == t.w.spec
  {
  }

  lemma StatusWriteKeeps(e: Surroundings, s: State)
    requires Good(e, s) && CanRecord(s)
    ensures var (t, err) := StatusWrite(e, s);
            && Good(e, t) && s.log <= t.log
            && t.copy.spec == s.copy.spec && t.copy.conditions == s.copy.conditions && t.copy.nodes == s.copy.nodes
            && (err.Some? ==> Carried(s, t))
            && (err.None? ==>
                  && t.w.conditions == t.copy.conditions && t.w.nodes == t.copy.nodes && t.copy.version == t.w.version && t.copy.spec == t.w.spec
                  && t.w.bootstraps == s.w.bootstraps && t.w.lostBootstraps == s.w.lostBootstraps
                  && t.w.inits == s.w.inits && t.w.lostInits == s.w.lostInits && t.w.nshards == s.w.nshards
                  && t.w.objects.Keys == s.w.objects.Keys
                  && s.copy.version == s.w.version)
  {
    hide Good, CanRecord;
    var s1 := Call(e, s);
    CallKeeps(e, s);
    CanRecordStill(s, s1);
    if FaultOf(e, s1) == NoFault && s1.copy.version == s1.w.version {
      RecordKeeps(e, s1);
      GoodIgnoresCopy(e, Store(s1, StatusWrite(e, s).0.w), StatusWrite(e, s).0);
    }
  }

  // ---------- the twelve steps ----------

  lemma LogDeviceKeeps(e: Surroundings, s: State)
    requires Stage(e, s, 0)
    ensures var (t, v) := LogDeviceStep(e, s);
            StepKept(e, s, t, v, 0)
  {
    hide Good, ShardConfigPart, LogDeviceCreatePart;
    var s1 := Call(e, s);
    CallKeeps(e, s);
    CarriedStage(e, s, s1, 0);
    if FaultOf(e, s1) == NoFault {
      if s1.w.logDevice.Some? { ShardConfigKeeps(e, s1); } else { LogDeviceCreateKeeps(e, s1); }
    }
  }

  lemma LogDeviceCreateKeeps(e: Surroundings, s: State)
    requires Stage(e, s, 0) && s.w.logDevice.None?
    ensures var (t, v) := LogDeviceCreatePart(e, s);
            StepKept(e, s, t, v, 0)
  {
    hide Good, ConfigFor, ShardConfigPart;
    var s2 := Call(e, s);
    CallKeeps(e, s);
    CarriedStage(e, s, s2, 0);
    if FaultOf(e, s2) == NoFault {
      var w := s2.w.(logDevice := Some(ConfigFor(s2.copy.spec)), writes := s2.w.writes + 1);
      ConfigStored(e, s2, w);
      ShardConfigKeeps(e, Store(s2, w));
    }
  }

  /** Creating a ConfigMap. */
  lemma ConfigStored(e: Surroundings, s: State, w: World)
    requires Stage(e, s, 0)
    requires w == s.w.(logDevice := w.logDevice, nshards := w.nshards, writes := w.writes)
    requires s.w.logDevice.Some? ==> w.logDevice == s.w.logDevice
    requires s.w.nshards.Some? ==> w.nshards == s.w.nshards
    requires w.nshards.Some? && s.w.nshards.None? ==> exists n: int32 :: w.nshards.value == Itoa(n)
    ensures Stage(e, Store(s, w), 0) && Carried(s, Store(s, w))
  {
    assert Inv(e, s.log[|s.log| - 1]);
    Extend(e, s, Store(s, w));
  }

  lemma ShardConfigKeeps(e: Surroundings, s: State)
    requires Stage(e, s, 0)
    ensures var (t, v) := ShardConfigPart(e, s);
            StepKept(e, s, t, v, 0)
  {
    hide Good, Itoa;
    var s1 := Call(e, s);
    CallKeeps(e, s);
    CarriedStage(e, s, s1, 0);
    if !TickOf(e, s1).shardReadFails && s1.w.nshards.None? {
      var s2 := Call(e, s1);
      CallKeeps(e, s1);
      CarriedStage(e, s1, s2, 0);
      if FaultOf(e, s2) == NoFault {
        var n: int32 := MinNShards(s1.copy.spec.nShards);
        ConfigStored(e, s2, s2.w.(nshards := Some(Itoa(n)), writes := s2.w.writes + 1));
      }
    }
  }

  lemma ServicesKeep(e: Surroundings, s: State)
    requires Stage(e, s, 1)
    ensures var (t, v) := ServicesStep(e, s);
            && Carried(s, t) && Stage(e, t, 1)
            && (v.Stop? ==> ProperStop(v.requeue))
  {
    var spec := s.copy.spec;
    var (s1, v1) := HMetaServiceOf(e, s);
    if spec.externalHMeta.None? {
      ServiceStep(e, s, KHMeta, HMetaServicePorts(spec.hMeta.container.args, spec.hMeta.container.ports));
    } else {
      CarriedItself(s);
    }
    if v1.Go? {
      var p2 := ServicePortsOf(spec.adminServer.container.args, spec.adminServer.container.ports, ADMIN_SERVER_PORTS);
      var (s2, v2) := ServiceOf(e, s1, KAdminServer, p2);
      ServiceStep(e, s1, KAdminServer, p2);
      CarriedTransitive(s, s1, s2);
      if v2.Go? {
        var p3 := ServicePortsOf(spec.hStore.container.args, spec.hStore.container.ports, HSTORE_PORTS);
        var (s3, v3) := ServiceOf(e, s2, KHStore, p3);
        ServiceStep(e, s2, KHStore, p3);
        CarriedTransitive(s, s2, s3);
        if v3.Go? {
          var p4 := ServicePorts(spec.hServer.container);
          ServiceStep(e, s3, KHServer, p4);
          CarriedTransitive(s, s3, ServiceOf(e, s3, KHServer, p4).0);
        }
      }
    }
  }

  lemma ServicesKept(e: Surroundings, s: State)
    requires Stage(e, s, 1)
    ensures var (t, v) := ServicesStep(e, s);
            StepKept(e, s, t, v, 1)
  {
    hide Good, ServicesStep;
    ServicesKeep(e, s);
    CarriedNext(e, s, ServicesStep(e, s).0, 1);
  }

  lemma CarriedItself(s: State)
    ensures Carried(s, s)
  {
  }

  lemma HMetaKeeps(e: Surroundings, s: State)
    requires Stage(e, s, 2)
    ensures var (t, v) := HMetaStep(e, s);
            StepKept(e, s, t, v, 2) && Carried(s, t)
  {
    hide Good, HMetaTemplate;
    if s.copy.spec.externalHMeta.Some? {
      CarriedItself(s);
    } else {
      WorkloadStep(e, s, KHMeta, HMetaTemplate(s.copy.spec), 2);
    }
  }

  lemma AdminServerKeeps(e: Surroundings, s: State)
    requires Stage(e, s, 4)
    ensures var (t, v) := AdminServerStep(e, s);
            StepKept(e, s, t, v, 4) && Carried(s, t)
  {
    hide Good, AdminServerTemplate;
    WorkloadStep(e, s, KAdminServer, AdminServerTemplate(s.copy.spec), 4);
  }

  lemma HServerKeeps(e: Surroundings, s: State)
    requires Stage(e, s, 7)
    ensures var (t, v) := HServerStep(e, s);
            StepKept(e, s, t, v, 7) && Carried(s, t)
  {
    hide Good, HServerTemplate;
    WorkloadStep(e, s, KHServer, HServerTemplate(s.copy.spec), 7);
  }

  lemma ConsoleKeeps(e: Surroundings, s: State)
    requires Stage(e, s, 10)
    ensures var (t, v) := ConsoleStep(e, s);
            StepKept(e, s, t, v, 10) && Carried(s, t)
  {
    hide Good, ConsoleTemplate;
    if s.copy.spec.console.Some? {
      WorkloadStep(e, s, KConsole, ConsoleTemplate(s.copy.spec, s.copy.spec.console.value), 10);
    } else {
      CarriedItself(s);
    }
  }

  /** The gateway is never made to wait: by then HServerReady holds. */
  lemma GatewayKeeps(e: Surroundings, s: State)
    requires Stage(e, s, 9)
    ensures var (t, v) := GatewayStep(e, s);
            StepKept(e, s, t, v, 9) && Carried(s, t)
  {
    hide Good, GatewayTemplate, HServerPortSeen;
    match s.copy.spec.gateway
    case None => CarriedItself(s);
    case Some(g) =>
      var s1 := Call(e, s);
      CallKeeps(e, s);
      CarriedStage(e, s, s1, 9);
      var body := WorkloadBody(GatewayTemplate(s1.copy.spec.instance, g, HServerPortSeen(e, s1)));
      EnsureStep(e, s1, Workload(KGateway), body, 9);
      CarriedTransitive(s, s1, Ensure(e, s1, Workload(KGateway), body).0);
  }

  /** What is recorded as text is the shard count used. */
  lemma RecordedCount(w: World, otherwise: int32)
    requires ShardsRecorded(w) && w.nshards.Some?
    ensures exists n: int32 :: w.nshards.value == Itoa(n) && forall o: int32 :: ShardCount(w.nshards.value, o) == n
  {
    var n: int32 :| w.nshards.value == Itoa(n);
    AtoiItoa(n);
  }

  lemma BuiltForSeen(e: Surroundings, s: State, t: Template)
    requires Good(e, s) && s.clock > 0 && ShardReadsSucceed(e) && s.w.nshards.Some?
    requires HStoreTemplate(s.copy.spec, ShardsSeen(e, s)) == Ok(t)
    ensures HasShards(WorkloadBody(t), s.w.nshards.value)
  {
    hide HStoreTemplate;
    assert Inv(e, s.log[|s.log| - 1]);
    RecordedCount(s.w, s.copy.spec.nShards);
    var n := ShardsSeen(e, s);
    assert HStoreTemplate(s.copy.spec, n) == Ok(t);
    assert BuiltFor(t, n);
  }

  lemma HStoreKeeps(e: Surroundings, s: State)
    requires Stage(e, s, 5)
    ensures var (t, v) := HStoreStep(e, s);
            StepKept(e, s, t, v, 5) && Carried(s, t)
  {
    hide Good, HStoreTemplate, HasShards;
    var s1 := Call(e, s);
    CallKeeps(e, s);
    CarriedStage(e, s, s1, 5);
    var template := HStoreTemplate(s1.copy.spec, ShardsSeen(e, s1));
    if template.Ok? {
      if ShardReadsSucceed(e) { BuiltForSeen(e, s1, template.value); }
      var body := WorkloadBody(template.value);
      EnsureStep(e, s1, Workload(KHStore), body, 5);
      CarriedTransitive(s, s1, Ensure(e, s1, Workload(KHStore), body).0);
    }
  }

  // ---------- the steps that write status ----------

  lemma HMetaStatusKeeps(e: Surroundings, s: State)
    requires Stage(e, s, 3)
    ensures var (t, v) := HMetaStatusStep(e, s);
            StepKept(e, s, t, v, 3)
  {
    hide Good, Running;
    if s.copy.spec.externalHMeta.Some? {
      FenceKeeps(e, s);
    } else {
      var s1 := Call(e, s);
      CallKeeps(e, s);
      CarriedStage(e, s, s1, 3);
      if Running(e, s1, KHMeta).Some? { FenceKeeps(e, s1); }
    }
  }

  /** Raising one more condition in order: the write may be asked for. */
  lemma CanRaise(e: Surroundings, s: State, c: Condition)
    requires Good(e, s) && s.copy.version <= s.w.version
    requires s.copy.version == s.w.version ==> s.copy.spec == s.w.spec && s.copy.conditions == s.w.conditions
    requires s.copy.version == s.w.version && c != HMetaReady ==> s.copy.nodes == s.w.nodes
    requires s.copy.version == s.w.version ==>
               (match c
                case HMetaReady => s.copy.nodes != map[] && forall id :: id in s.copy.nodes ==> s.copy.nodes[id].reachable
                case HStoreReady =>
                  IsTrue(s.w.conditions, HMetaReady) && |s.w.bootstraps| == s.w.lostBootstraps + 1 && Workload(KHStore) in s.w.objects
                case HServerReady =>
                  IsTrue(s.w.conditions, HStoreReady) && s.w.inits == s.w.lostInits + 1 && Workload(KHServer) in s.w.objects
                case _ => false)
    ensures CanRecord(WithCondition(s, c, true)) && Good(e, WithCondition(s, c, true))
  {
    StoredIsOrdered(e, s);
    GoodIgnoresCopy(e, s, WithCondition(s, c, true));
  }

  /** The freshness fence: whatever copy the pass began with, past this write
      the copy's conditions are the stored ones. */
  lemma FenceKeeps(e: Surroundings, s: State)
    requires Stage(e, s, 3)
    ensures var (t, v) := HMetaClusterPart(e, s);
            StepKept(e, s, t, v, 3)
  {
    hide Good, CanRecord, StatusWrite, Interfere;
    var s1 := Call(e, s);
    CallKeeps(e, s);
    CarriedStage(e, s, s1, 3);
    if FaultOf(e, s1) == NoFault && AllReachable(TickOf(e, s1).nodes) {
      assert TickOf(e, s1).nodes != map[];
      var named := s1.(copy := s1.copy.(nodes := TickOf(e, s1).nodes));
      GoodIgnoresCopy(e, s1, named);
      CanRaise(e, named, HMetaReady);
      var asked := WithCondition(named, HMetaReady, true);
      StatusWriteKeeps(e, asked);
      var (t, err) := StatusWrite(e, asked);
      assert HMetaClusterPart(e, s) == (t, if err.Some? then Failing(err.value) else Go);
    }
  }

  lemma StoredIsGood(e: Surroundings, s: State)
    requires Good(e, s)
    ensures Inv(e, s.w)
  {
    assert Inv(e, s.log[|s.log| - 1]);
  }

  lemma StoredIsOrdered(e: Surroundings, s: State)
    requires Good(e, s)
    ensures Ordered(s.w.conditions) && Counted(s.w.conditions, s.w) && Meant(s.w.conditions, s.w.nodes, s.w.objects)
  {
    StoredIsGood(e, s);
  }

  lemma GoodIgnoresCopy(e: Surroundings, s: State, t: State)
    requires Good(e, s) && t.w == s.w && t.log == s.log
    ensures Good(e, t)
  {
  }

  /** A counted effect on the cluster: one more bootstrap, init or lost record. */
  lemma EffectKeeps(e: Surroundings, s: State, w: World)
    requires Good(e, s)
    requires w == s.w.(bootstraps := w.bootstraps, lostBootstraps := w.lostBootstraps, inits := w.inits, lostInits := w.lostInits)
    requires Counted(w.conditions, w) && s.w.bootstraps <= w.bootstraps && s.w.inits <= w.inits
    requires IsTrue(w.conditions, HStoreReady) ==> w.bootstraps == s.w.bootstraps
    requires IsTrue(w.conditions, HServerReady) ==> w.inits == s.w.inits
    requires forall b :: b in w.bootstraps && b !in s.w.bootstraps ==>
               RightReplication(b) && (HashTellsReplicas(e) ==> b.replication <= b.ready)
    ensures Good(e, Store(s, w))
  {
    StoredIsGood(e, s);
    Extend(e, s, Store(s, w));
  }

  /** The workload the pass just ensured has the replicas the copy asks for. */
  ghost predicate Ensured(e: Surroundings, s: State) {
    HashTellsReplicas(e) ==>
      forall o :: o == Workload(KHStore) && o in s.w.objects && s.w.objects[o].body.WorkloadBody? ==>
        s.w.objects[o].body.template.replicas == s.copy.spec.hStore.replicas
  }

  lemma HStoreEnsured(e: Surroundings, s: State)
    requires Stage(e, s, 5)
    ensures var (t, v) := HStoreStep(e, s);
            v.Go? ==> Ensured(e, t)
  {
    hide Good, Inv;
    HStoreKeeps(e, s);
    var s1 := Call(e, s);
    var template := HStoreTemplate(s1.copy.spec, ShardsSeen(e, s1));
    HStoreReplicas(s1.copy.spec, ShardsSeen(e, s1));
    if template.Ok? {
      var body := WorkloadBody(template.value);
      var (t, v) := Ensure(e, s1, Workload(KHStore), body);
      EnsureHashed(e, s1, Workload(KHStore), body);
      if v.Go? {
        StoredIsHashed(e, t);
      }
    }
  }

  lemma StoredIsHashed(e: Surroundings, s: State)
    requires Good(e, s)
    ensures Hashed(e, s.w)
  {
    StoredIsGood(e, s);
  }

  lemma HStoreReplicas(spec: Spec, n: int32)
    ensures HStoreTemplate(spec, n).Ok? ==> HStoreTemplate(spec, n).value.replicas == spec.hStore.replicas
  {
  }

  lemma EnsureHashed(e: Surroundings, s: State, key: Key, body: Body)
    ensures var (t, v) := Ensure(e, s, key, body);
            v.Go? ==> key in t.w.objects && t.w.objects[key].hash == e.hash(key, body)
  {
  }

  lemma ReplicationWithin(spec: Spec, ready: nat)
    ensures RightReplication(Bootstrap(MetadataReplication(spec), spec.hStore.replicas, spec.metadataReplicateAcross, ready))
  {
  }

  lemma RunningIsThere(e: Surroundings, s: State, kind: Kind)
    requires s.clock > 0
    ensures Running(e, s, kind).Some? ==> Workload(kind) in s.w.objects
  {
  }

  /** The ensured workload, found running, has the replicas the copy asks for. */
  lemma RunningEnsured(e: Surroundings, s: State)
    requires Ensured(e, s) && HashTellsReplicas(e)
    ensures var ready := Running(e, Call(e, s), KHStore);
            ready.Some? ==> ready.value >= s.copy.spec.hStore.replicas
  {
    hide HashTellsReplicas;
  }

  lemma BootstrapHStoreKeeps(e: Surroundings, s: State)
    requires Stage(e, s, 6) && Ensured(e, s)
    ensures var (t, v) := BootstrapHStoreStep(e, s);
            StepKept(e, s, t, v, 6)
  {
    hide Good, BootstrapRecordPart, Interfere, Running, Ensured, HashTellsReplicas;
    if !IsTrue(s.copy.conditions, HStoreReady) {
      var s1 := Call(e, s);
      CallKeeps(e, s);
      if HashTellsReplicas(e) { RunningEnsured(e, s); }
      CarriedStage(e, s, s1, 6);
      var ready := Running(e, s1, KHStore);
      RunningIsThere(e, s1, KHStore);
      if ready.Some? {
        var s2 := Call(e, s1);
        CallKeeps(e, s1);
        CarriedStage(e, s1, s2, 6);
        if FaultOf(e, s2) == NoFault {
          BootstrapRecorded(e, s2, ready.value);
        }
      }
    }
  }

  /** From the successful call to the status write and what follows. */
  lemma BootstrapRecorded(e: Surroundings, s: State, ready: nat)
    requires Stage(e, s, 6) && !IsTrue(s.copy.conditions, HStoreReady) && Workload(KHStore) in s.w.objects
    requires HashTellsReplicas(e) ==> ready >= s.copy.spec.hStore.replicas
    ensures var (t, v) := BootstrapRecordPart(e, s, ready);
            StepKept(e, s, t, v, 6) && v.Stop?
  {
    hide Good, CanRecord, StatusWrite, MetadataReplication;
    var spec := s.copy.spec;
    ReplicationWithin(spec, ready);
    var b := Bootstrap(MetadataReplication(spec), spec.hStore.replicas, spec.metadataReplicateAcross, ready);
    var w3 := s.w.(bootstraps := s.w.bootstraps + [b]);
    StoredIsOrdered(e, s);
    EffectKeeps(e, s, w3);
    CanRaise(e, Store(s, w3), HStoreReady);
    BootstrapWritten(e, s, WithCondition(Store(s, w3), HStoreReady, true), b);
  }

  lemma BootstrapWritten(e: Surroundings, s: State, asked: State, b: Bootstrap)
    requires Stage(e, s, 6) && !IsTrue(s.copy.conditions, HStoreReady)
    requires asked == WithCondition(Store(s, s.w.(bootstraps := s.w.bootstraps + [b])), HStoreReady, true)
    requires Good(e, asked) && CanRecord(asked)
    ensures var (s4, err) := StatusWrite(e, asked);
            var t := if err.Some? then Store(s4, s4.w.(lostBootstraps := s4.w.lostBootstraps + 1)) else s4;
            Good(e, t) && Even(t.w) && s.log <= t.log && t.copy.spec == s.copy.spec
  {
    hide Good, CanRecord, StatusWrite, RightReplication, HashTellsReplicas;
    StatusWriteKeeps(e, asked);
    var (s4, err) := StatusWrite(e, asked);
    if err.Some? {
      EffectKeeps(e, s4, s4.w.(lostBootstraps := s4.w.lostBootstraps + 1));
    }
  }

  lemma BootstrapHServerKeeps(e: Surroundings, s: State)
    requires Stage(e, s, 8)
    ensures var (t, v) := BootstrapHServerStep(e, s);
            StepKept(e, s, t, v, 8)
  {
    hide Good, Running, InitRecordPart, Interfere;
    if !IsTrue(s.copy.conditions, HServerReady) {
      var s1 := Call(e, s);
      CallKeeps(e, s);
      CarriedStage(e, s, s1, 8);
      RunningIsThere(e, s1, KHServer);
      if Running(e, s1, KHServer).Some? {
        var s2 := Call(e, s1);
        CallKeeps(e, s1);
        CarriedStage(e, s1, s2, 8);
        if FaultOf(e, s2) == NoFault {
          InitRecorded(e, s2);
        }
      }
    }
  }

  lemma InitRecorded(e: Surroundings, s: State)
    requires Stage(e, s, 8) && !IsTrue(s.copy.conditions, HServerReady) && Workload(KHServer) in s.w.objects
    ensures var (t, v) := InitRecordPart(e, s);
            StepKept(e, s, t, v, 8)
  {
    hide Good, CanRecord, StatusWrite, RightReplication, HashTellsReplicas;
    var w3 := s.w.(inits := s.w.inits + 1);
    StoredIsOrdered(e, s);
    EffectKeeps(e, s, w3);
    CanRaise(e, Store(s, w3), HServerReady);
    var asked := WithCondition(Store(s, w3), HServerReady, true);
    InitWritten(e, s, asked);
    var (s4, err) := StatusWrite(e, asked);
    assert err.None? ==> InitRecordPart(e, s) == (s4, Go);
  }

  lemma InitWritten(e: Surroundings, s: State, asked: State)
    requires Stage(e, s, 8) && !IsTrue(s.copy.conditions, HServerReady)
    requires asked == WithCondition(Store(s, s.w.(inits := s.w.inits + 1)), HServerReady, true)
    requires Good(e, asked) && CanRecord(asked)
    ensures var (s4, err) := StatusWrite(e, asked);
            var t := if err.Some? then Store(s4, s4.w.(lostInits := s4.w.lostInits + 1)) else s4;
            && Good(e, t) && Even(t.w) && s.log <= t.log && t.copy.spec == s.copy.spec
            && (err.None? ==> Stage(e, t, 9))
  {
    hide Good, CanRecord, StatusWrite, RightReplication, HashTellsReplicas;
    StatusWriteKeeps(e, asked);
    var (s4, err) := StatusWrite(e, asked);
    if err.Some? {
      EffectKeeps(e, s4, s4.w.(lostInits := s4.w.lostInits + 1));
    }
  }

  /** `checkComponentsReady` sets conditions in the copy only, and only to `True`. */
  ghost predicate Raised(s: State, t: State) {
    && t.copy == s.copy.(conditions := t.copy.conditions)
    && Carried(s, t.(copy := s.copy))
    && (forall c :: c in s.copy.conditions ==> c in t.copy.conditions && (s.copy.conditions[c] ==> t.copy.conditions[c]))
    && (forall c :: c in t.copy.conditions && c !in s.copy.conditions ==> t.copy.conditions[c])
    && (forall c :: IsTrue(t.copy.conditions, c) ==>
          || IsTrue(s.copy.conditions, c)
          || (c == GatewayReady && Workload(KGateway) in t.w.objects)
          || (c == ConsoleReady && Workload(KConsole) in t.w.objects))
  }

  lemma ComponentKeeps(e: Surroundings, s: State, wanted: bool, kind: Kind, c: Condition)
    requires Good(e, s) && (c == GatewayReady || c == ConsoleReady) && kind == (if c == GatewayReady then KGateway else KConsole)
    ensures var (t, v) := ComponentPart(e, s, wanted, kind, c);
            && Good(e, t) && Raised(s, t) && (v.Stop? ==> ProperStop(v.requeue))
            && (v.Go? && wanted ==> IsTrue(t.copy.conditions, c))
  {
    hide Good;
    if wanted {
      CallKeeps(e, s);
      GoodIgnoresCopy(e, Call(e, s), WithCondition(Call(e, s), c, true));
    }
  }

  lemma RaisedTransitive(a: State, b: State, c: State)
    requires Raised(a, b) && Raised(b, c)
    ensures Raised(a, c)
  {
  }

  lemma ComponentsKeep(e: Surroundings, s: State)
    requires Good(e, s)
    ensures var (t, v) := ComponentsPart(e, s);
            && Good(e, t) && Raised(s, t) && (v.Stop? ==> ProperStop(v.requeue))
            && (v.Go? && s.copy.spec.gateway.Some? ==> IsTrue(t.copy.conditions, GatewayReady))
            && (v.Go? && s.copy.spec.console.Some? ==> IsTrue(t.copy.conditions, ConsoleReady))
  {
    hide Good, ComponentPart;
    var gateway, console := s.copy.spec.gateway.Some?, s.copy.spec.console.Some?;
    if e.tape(s.clock).gatewayFirst {
      ComponentKeeps(e, s, gateway, KGateway, GatewayReady);
      var (s1, v) := ComponentPart(e, s, gateway, KGateway, GatewayReady);
      if v.Go? {
        ComponentKeeps(e, s1, console, KConsole, ConsoleReady);
        RaisedTransitive(s, s1, ComponentPart(e, s1, console, KConsole, ConsoleReady).0);
      }
    } else {
      ComponentKeeps(e, s, console, KConsole, ConsoleReady);
      var (s1, v) := ComponentPart(e, s, console, KConsole, ConsoleReady);
      if v.Go? {
        ComponentKeeps(e, s1, gateway, KGateway, GatewayReady);
        RaisedTransitive(s, s1, ComponentPart(e, s1, gateway, KGateway, GatewayReady).0);
      }
    }
  }

  /** The last step stores Ready, never its negation, and never asks for a delayed requeue. */
  lemma StatusKeeps(e: Surroundings, s: State)
    requires Stage(e, s, 11)
    ensures var (t, v) := StatusStep(e, s);
            StepKept(e, s, t, v, 11)
  {
    hide Good, Inv, StatusWrite, ComponentsPart;
    ComponentsKeep(e, s);
    var (s1, v) := ComponentsPart(e, s);
    StoredIsOrdered(e, s);
    if v.Go? {
      assert AllReady(s1.copy);
      var asked := WithCondition(s1, Ready, true);
      GoodIgnoresCopy(e, s1, asked);
      assert CanRecord(asked);
      StatusWriteKeeps(e, asked);
      var (t, err) := StatusWrite(e, asked);
      assert err.None? ==> StatusStep(e, s) == (t, Go);
    }
  }

  // ---------- passes ----------

  /** A proper stop is an error or a requeue after some time. */
  lemma ProperStopRequeues(r: Requeue)
    requires ProperStop(r)
    ensures Processed(r).Failed? || (Processed(r).RequeueAfter? && Processed(r).seconds > 0)
  {
    if r.error.Some? {
      match r.error.value
      case ConflictError =>
      case OtherError =>
    }
  }

  /** A pass from step `i` on: everything stored is good, and nothing stalls. */
  lemma {:induction false} RunFromKeeps(e: Surroundings, s: State, i: nat)
    requires i <= |STEPS| && Stage(e, s, i) && (i > 6 || i < 6 || Ensured(e, s))
    ensures var (t, o) := RunFrom(e, s, i, false);
            && Good(e, t) && Even(t.w) && s.log <= t.log
            && (o.Done? ==> IsTrue(t.w.conditions, Ready))
            && (o.RequeueAfter? ==> o.seconds > 0)
            && !o.Absent?
    decreases |STEPS| - i
  {
    hide Good, RunStep;
    if i < |STEPS| {
      var (s1, v) := RunStep(e, s, STEPS[i]);
      StepKeeps(e, s, i);
      if v.Go? {
        RunFromKeeps(e, s1, i + 1);
      } else if v.Stop? {
        ProperStopRequeues(v.requeue);
      }
    }
  }

  lemma StepKeeps(e: Surroundings, s: State, i: nat)
    requires i < |STEPS| && Stage(e, s, i) && (i == 6 ==> Ensured(e, s))
    ensures var (t, v) := RunStep(e, s, STEPS[i]);
            StepKept(e, s, t, v, i) && (i == 5 && v.Go? ==> Ensured(e, t))
  {
    hide Good, Stage, StepKept, LogDeviceStep, ServicesStep, HMetaStep, HMetaStatusStep, AdminServerStep, HStoreStep,
         BootstrapHStoreStep, HServerStep, BootstrapHServerStep, GatewayStep, ConsoleStep, StatusStep, Ensured,
         HMetaTemplate, AdminServerTemplate, HStoreTemplate, HServerTemplate, ConsoleTemplate;
    if i == 0 { LogDeviceKeeps(e, s); }
    else if i == 1 { ServicesKept(e, s); }
    else if i == 2 { HMetaKeeps(e, s); }
    else if i == 3 { HMetaStatusKeeps(e, s); }
    else if i == 4 { AdminServerKeeps(e, s); }
    else if i == 5 { HStoreKeeps(e, s); HStoreEnsured(e, s); }
    else if i == 6 { BootstrapHStoreKeeps(e, s); }
    else if i == 7 { HServerKeeps(e, s); }
    else if i == 8 { BootstrapHServerKeeps(e, s); }
    else if i == 9 { GatewayKeeps(e, s); }
    else if i == 10 { ConsoleKeeps(e, s); }
    else { StatusKeeps(e, s); }
  }

  /** The first step that does not go on, with its verdict. */
  ghost function Ending(e: Surroundings, s: State, i: nat): Option<(Step, Verdict)>
    requires i <= |STEPS|
    decreases |STEPS| - i
  {
    if i == |STEPS| then None
    else
      var (s1, v) := RunStep(e, s, STEPS[i]);
      if v.Go? then Ending(e, s1, i + 1) else Some((STEPS[i], v))
  }

  lemma {:induction false} EndingIsOutcome(e: Surroundings, s: State, i: nat)
    requires i <= |STEPS| && Stage(e, s, i) && (i == 6 ==> Ensured(e, s))
    ensures match Ending(e, s, i)
            case None => RunFrom(e, s, i, false).1 == Done
            case Some((_, v)) =>
              || (v.Crash? && RunFrom(e, s, i, false).1 == Crashed)
              || (v.Stop? && ProperStop(v.requeue) && RunFrom(e, s, i, false).1 == Processed(v.requeue))
    decreases |STEPS| - i
  {
    hide Good, RunStep;
    if i < |STEPS| {
      StepKeeps(e, s, i);
      var (s1, v) := RunStep(e, s, STEPS[i]);
      if v.Go? { EndingIsOutcome(e, s1, i + 1); }
    }
  }

  lemma BeginStage(e: Surroundings, s: State, view: Read)
    requires Good(e, s) && Even(s.w)
    ensures Stage(e, Begin(Call(e, s), view), 0) && s.log <= Begin(Call(e, s), view).log
  {
    hide Inv;
    CallKeeps(e, s);
    GoodIgnoresCopy(e, Call(e, s), Begin(Call(e, s), view));
  }

  lemma PassKeeps(e: Surroundings, s: State, view: Read)
    requires Good(e, s) && Even(s.w)
    ensures var (t, o) := Pass(e, s, view);
            && Good(e, t) && Even(t.w) && s.log <= t.log
            && (o.Done? ==> IsTrue(t.w.conditions, Ready))
            && (o.RequeueAfter? ==> o.seconds > 0)
            && (o.Absent? <==> view.Missing?)
  {
    hide Good;
    CallKeeps(e, s);
    BeginStage(e, s, view);
    RunFromKeeps(e, Begin(Call(e, s), view), 0);
  }

  lemma FreshIsGood(e: Surroundings, spec: Spec)
    ensures Good(e, Fresh(spec)) && Even(Fresh(spec).w)
  {
  }

  /** Every world stored in any run, by any number of passes from any copies, is good. */
  lemma {:induction false} RunKeeps(e: Surroundings, spec: Spec, views: nat -> Read, n: nat)
    ensures var s := Passes(e, Fresh(spec), views, n);
            Good(e, s) && Even(s.w)
    decreases n
  {
    hide Good, Pass;
    if n == 0 {
      FreshIsGood(e, spec);
    } else {
      RunKeeps(e, spec, views, n - 1);
      PassKeeps(e, Passes(e, Fresh(spec), views, n - 1), views(n - 1));
    }
  }
}
