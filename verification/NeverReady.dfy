/** The other half of convergence: a workload none of whose replicas is ever ready is
    never recorded as ready, however few replicas it asks for, and no pass is ever done. */
module NeverReady {
  import opened Text
  import opened Ports
  import opened Agreement
  import opened Api
  import opened Templates
  import opened Cluster
  import opened Steps
  import opened Settling
  import opened Safety
  import opened Runs
  import opened RunTheorems

  /** No ready count of the workload is ever more than zero. */
  ghost predicate NoneReady(e: Surroundings, kind: Kind) {
    forall i :: Workload(kind) in e.tape(i).env.ready ==> e.tape(i).env.ready[Workload(kind)] == 0
  }

  predicate Asleep(w: World, kind: Kind) {
    Workload(kind) in w.objects ==> w.objects[Workload(kind)].ready == 0
  }

  /** What is done once the workload runs has not been done. */
  predicate NothingDone(w: World, v: World, kind: Kind) {
    if kind == KHStore then v.bootstraps == w.bootstraps else v.inits == w.inits
  }

  ghost predicate Sleeps(s: State, t: State, kind: Kind) {
    Asleep(s.w, kind) ==> Asleep(t.w, kind) && NothingDone(s.w, t.w, kind)
  }

  function ConditionOf(kind: Kind): Condition { if kind == KHStore then HStoreReady else HServerReady }

  lemma SleepsTransitive(a: State, b: State, c: State, kind: Kind)
    requires Sleeps(a, b, kind) && Sleeps(b, c, kind)
    ensures Sleeps(a, c, kind)
  {
  }

  lemma CallSleeps(e: Surroundings, s: State, kind: Kind)
    requires NoneReady(e, kind)
    ensures Sleeps(s, Call(e, s), kind) && Call(e, s).copy == s.copy
  {
  }

  lemma EnsureSleeps(e: Surroundings, s: State, key: Key, body: Body, kind: Kind)
    requires NoneReady(e, kind)
    ensures Sleeps(s, Ensure(e, s, key, body).0, kind)
  {
    hide Interfere;
    CallSleeps(e, s, kind);
    CallSleeps(e, Call(e, s), kind);
  }

  lemma StatusWriteSleeps(e: Surroundings, s: State, kind: Kind)
    requires NoneReady(e, kind)
    ensures Sleeps(s, StatusWrite(e, s).0, kind)
  {
    hide Interfere;
    CallSleeps(e, s, kind);
  }

  // ---------- the steps ----------

  lemma ShardConfigSleeps(e: Surroundings, s: State, kind: Kind)
    requires NoneReady(e, kind)
    ensures Sleeps(s, ShardConfigPart(e, s).0, kind)
  {
    hide Interfere, Itoa;
    CallSleeps(e, s, kind);
    CallSleeps(e, Call(e, s), kind);
  }

  lemma LogDeviceSleeps(e: Surroundings, s: State, kind: Kind)
    requires NoneReady(e, kind)
    ensures Sleeps(s, LogDeviceStep(e, s).0, kind)
  {
    hide Interfere, ShardConfigPart, ConfigFor;
    var s1 := Call(e, s);
    var s2 := Call(e, s1);
    CallSleeps(e, s, kind);
    CallSleeps(e, s1, kind);
    ShardConfigSleeps(e, s1, kind);
    ShardConfigSleeps(e, Store(s2, s2.w.(logDevice := Some(ConfigFor(s2.copy.spec)), writes := s2.w.writes + 1)), kind);
  }

  lemma ServiceSleeps(e: Surroundings, s: State, of: Kind, ports: Result<seq<ServicePort>>, kind: Kind)
    requires NoneReady(e, kind)
    ensures Sleeps(s, ServiceOf(e, s, of, ports).0, kind)
  {
    hide Ensure;
    if ports.Ok? { EnsureSleeps(e, s, Service(of), ServiceBody(ports.value), kind); }
  }

  lemma ServicesSleep(e: Surroundings, s: State, kind: Kind)
    requires NoneReady(e, kind)
    ensures Sleeps(s, ServicesStep(e, s).0, kind)
  {
    hide ServiceOf, ContainerServicePorts, HMetaServicePorts, Asleep, NothingDone;
    var spec := s.copy.spec;
    ServicesUnfold(e, s);
    ServiceSleeps(e, s, KHMeta, HMetaServicePorts(spec.hMeta.container.args, spec.hMeta.container.ports), kind);
    SleepsItself(s, kind);
    var s1 := HMetaServiceOf(e, s).0;
    var p2, p3, p4 := ContainerServicePorts(spec, KAdminServer), ContainerServicePorts(spec, KHStore), ContainerServicePorts(spec, KHServer);
    var s2 := ServiceOf(e, s1, KAdminServer, p2).0;
    var s3 := ServiceOf(e, s2, KHStore, p3).0;
    ServiceSleeps(e, s1, KAdminServer, p2, kind);
    SleepsTransitive(s, s1, s2, kind);
    ServiceSleeps(e, s2, KHStore, p3, kind);
    SleepsTransitive(s, s2, s3, kind);
    ServiceSleeps(e, s3, KHServer, p4, kind);
    SleepsTransitive(s, s3, ServiceOf(e, s3, KHServer, p4).0, kind);
  }

  lemma SleepsItself(s: State, kind: Kind)
    ensures Sleeps(s, s, kind)
  {
  }

  lemma WorkloadSleeps(e: Surroundings, s: State, of: Kind, template: Result<Template>, kind: Kind)
    requires NoneReady(e, kind)
    ensures Sleeps(s, WorkloadOf(e, s, of, template).0, kind)
  {
    hide Ensure;
    if template.Ok? { EnsureSleeps(e, s, Workload(of), WorkloadBody(template.value), kind); }
  }

  lemma HStoreSleeps(e: Surroundings, s: State, kind: Kind)
    requires NoneReady(e, kind)
    ensures Sleeps(s, HStoreStep(e, s).0, kind)
  {
    hide WorkloadOf, HStoreTemplate, Interfere;
    var s1 := Call(e, s);
    CallSleeps(e, s, kind);
    WorkloadSleeps(e, s1, KHStore, HStoreTemplate(s1.copy.spec, ShardsSeen(e, s1)), kind);
  }

  lemma GatewaySleeps(e: Surroundings, s: State, kind: Kind)
    requires NoneReady(e, kind)
    ensures Sleeps(s, GatewayStep(e, s).0, kind)
  {
    hide Ensure, GatewayTemplate, HServerPortSeen, Interfere;
    if s.copy.spec.gateway.Some? {
      var s1 := Call(e, s);
      CallSleeps(e, s, kind);
      EnsureSleeps(e, s1, Workload(KGateway),
                   WorkloadBody(GatewayTemplate(s1.copy.spec.instance, s1.copy.spec.gateway.value, HServerPortSeen(e, s1))), kind);
    }
  }

  lemma HMetaStatusSleeps(e: Surroundings, s: State, kind: Kind)
    requires NoneReady(e, kind)
    ensures Sleeps(s, HMetaStatusStep(e, s).0, kind)
  {
    hide StatusWrite, Interfere, Running, AllReachable;
    var s1 := if s.copy.spec.externalHMeta.Some? then s else Call(e, s);
    CallSleeps(e, s, kind);
    var s2 := Call(e, s1);
    CallSleeps(e, s1, kind);
    StatusWriteSleeps(e, WithCondition(s2.(copy := s2.copy.(nodes := TickOf(e, s2).nodes)), HMetaReady, true), kind);
  }

  /** No bootstrap while HStore sleeps; a bootstrap is no init. */
  lemma BootstrapHStoreSleeps(e: Surroundings, s: State, kind: Kind)
    requires NoneReady(e, kind) && kind in {KHStore, KHServer}
    ensures Sleeps(s, BootstrapHStoreStep(e, s).0, kind)
  {
    hide BootstrapRecordPart, Interfere;
    var s1 := Call(e, s);
    CallSleeps(e, s, kind);
    var s2 := Call(e, s1);
    CallSleeps(e, s1, kind);
    var ready := Running(e, s1, KHStore);
    if ready.Some? && kind == KHServer { BootstrapRecordSleeps(e, s2, ready.value); }
  }

  lemma BootstrapRecordSleeps(e: Surroundings, s: State, ready: nat)
    requires NoneReady(e, KHServer)
    ensures Sleeps(s, BootstrapRecordPart(e, s, ready).0, KHServer)
  {
    hide StatusWrite, MetadataReplication;
    var spec := s.copy.spec;
    var b := Bootstrap(MetadataReplication(spec), spec.hStore.replicas, spec.metadataReplicateAcross, ready);
    StatusWriteSleeps(e, WithCondition(Store(s, s.w.(bootstraps := s.w.bootstraps + [b])), HStoreReady, true), KHServer);
  }

  /** No init while HServer sleeps; an init is no bootstrap. */
  lemma BootstrapHServerSleeps(e: Surroundings, s: State, kind: Kind)
    requires NoneReady(e, kind) && kind in {KHStore, KHServer}
    ensures Sleeps(s, BootstrapHServerStep(e, s).0, kind)
  {
    hide StatusWrite, Interfere;
    var s1 := Call(e, s);
    CallSleeps(e, s, kind);
    var s2 := Call(e, s1);
    CallSleeps(e, s1, kind);
    if Running(e, s1, KHServer).Some? && kind == KHStore {
      StatusWriteSleeps(e, WithCondition(Store(s2, s2.w.(inits := s2.w.inits + 1)), HServerReady, true), kind);
    }
  }

  lemma ComponentSleeps(e: Surroundings, s: State, wanted: bool, of: Kind, c: Condition, kind: Kind)
    requires NoneReady(e, kind)
    ensures Sleeps(s, ComponentPart(e, s, wanted, of, c).0, kind)
  {
    hide Interfere;
    CallSleeps(e, s, kind);
  }

  lemma StatusSleeps(e: Surroundings, s: State, kind: Kind)
    requires NoneReady(e, kind)
    ensures Sleeps(s, StatusStep(e, s).0, kind)
  {
    hide StatusWrite, ComponentsPart, AllReady, Asleep, NothingDone;
    ComponentsSleep(e, s, kind);
    var s1 := ComponentsPart(e, s).0;
    var asked := WithCondition(s1, Ready, AllReady(s1.copy));
    StatusWriteSleeps(e, asked, kind);
    SleepsTransitive(s, s1, StatusWrite(e, asked).0, kind);
  }

  lemma ComponentsSleep(e: Surroundings, s: State, kind: Kind)
    requires NoneReady(e, kind)
    ensures Sleeps(s, ComponentsPart(e, s).0, kind)
  {
    hide ComponentPart, Asleep, NothingDone;
    var gateway, console := s.copy.spec.gateway.Some?, s.copy.spec.console.Some?;
    var s1, s2 := ComponentPart(e, s, gateway, KGateway, GatewayReady).0, ComponentPart(e, s, console, KConsole, ConsoleReady).0;
    ComponentSleeps(e, s, gateway, KGateway, GatewayReady, kind);
    ComponentSleeps(e, s, console, KConsole, ConsoleReady, kind);
    ComponentSleeps(e, s1, console, KConsole, ConsoleReady, kind);
    ComponentSleeps(e, s2, gateway, KGateway, GatewayReady, kind);
    SleepsTransitive(s, s1, ComponentPart(e, s1, console, KConsole, ConsoleReady).0, kind);
    SleepsTransitive(s, s2, ComponentPart(e, s2, gateway, KGateway, GatewayReady).0, kind);
  }

  lemma StepSleeps(e: Surroundings, s: State, step: Step, kind: Kind)
    requires NoneReady(e, kind) && kind in {KHStore, KHServer}
    ensures Sleeps(s, RunStep(e, s, step).0, kind)
  {
    hide LogDeviceStep, ServicesStep, HMetaStatusStep, HStoreStep, BootstrapHStoreStep, BootstrapHServerStep, GatewayStep, StatusStep, WorkloadOf,
         HMetaTemplate, AdminServerTemplate, HServerTemplate, ConsoleTemplate, Asleep, NothingDone;
    var spec := s.copy.spec;
    SleepsItself(s, kind);
    match step
    case LogDevice => LogDeviceSleeps(e, s, kind);
    case Services => ServicesSleep(e, s, kind);
    case AddHMeta => WorkloadSleeps(e, s, KHMeta, HMetaTemplate(spec), kind);
    case HMetaStatus => HMetaStatusSleeps(e, s, kind);
    case AddAdminServer => WorkloadSleeps(e, s, KAdminServer, AdminServerTemplate(spec), kind);
    case AddHStore => HStoreSleeps(e, s, kind);
    case BootstrapHStore => BootstrapHStoreSleeps(e, s, kind);
    case AddHServer => WorkloadSleeps(e, s, KHServer, HServerTemplate(spec), kind);
    case BootstrapHServer => BootstrapHServerSleeps(e, s, kind);
    case AddGateway => GatewaySleeps(e, s, kind);
    case AddConsole => if spec.console.Some? { WorkloadSleeps(e, s, KConsole, ConsoleTemplate(spec, spec.console.value), kind); }
    case UpdateStatus => StatusSleeps(e, s, kind);
  }

  // ---------- runs ----------

  lemma {:induction false} RunFromSleeps(e: Surroundings, s: State, i: nat, delayed: bool, kind: Kind)
    requires i <= |STEPS| && NoneReady(e, kind) && kind in {KHStore, KHServer}
    ensures Sleeps(s, RunFrom(e, s, i, delayed).0, kind)
    decreases |STEPS| - i
  {
    hide RunStep, Asleep, NothingDone;
    if i == |STEPS| {
      SleepsItself(s, kind);
    } else {
      var t := RunStep(e, s, STEPS[i]).0;
      StepSleeps(e, s, STEPS[i], kind);
      RunFromSleeps(e, t, i + 1, delayed, kind);
      RunFromSleeps(e, t, i + 1, true, kind);
      SleepsTransitive(s, t, RunFrom(e, t, i + 1, delayed).0, kind);
      SleepsTransitive(s, t, RunFrom(e, t, i + 1, true).0, kind);
    }
  }

  lemma PassSleeps(e: Surroundings, s: State, view: Read, kind: Kind)
    requires NoneReady(e, kind) && kind in {KHStore, KHServer}
    ensures Sleeps(s, Pass(e, s, view).0, kind)
  {
    hide RunFrom, Interfere;
    CallSleeps(e, s, kind);
    RunFromSleeps(e, Begin(Call(e, s), view), 0, false, kind);
  }

  lemma {:induction false} RunSleeps(e: Surroundings, spec: Spec, views: nat -> Read, n: nat, kind: Kind)
    requires NoneReady(e, kind) && kind in {KHStore, KHServer}
    ensures Asleep(Passes(e, Fresh(spec), views, n).w, kind) && NothingDone(Fresh(spec).w, Passes(e, Fresh(spec), views, n).w, kind)
    decreases n
  {
    hide Pass;
    if n > 0 {
      RunSleeps(e, spec, views, n - 1, kind);
      PassSleeps(e, Passes(e, Fresh(spec), views, n - 1), views(n - 1), kind);
    }
  }

  /** In a run where no HStore replica is ever ready there is no bootstrap, HStoreReady is
      never stored and no pass is done; and so for HServer and its init. */
  lemma NeverReadyNeverDone(e: Surroundings, spec: Spec, views: nat -> Read, n: nat, view: Read, kind: Kind)
    requires NoneReady(e, kind) && kind in {KHStore, KHServer}
    ensures forall i :: 0 <= i < |History(e, spec, views, n)| ==> !IsTrue(History(e, spec, views, n)[i].conditions, ConditionOf(kind))
    ensures var w := Passes(e, Fresh(spec), views, n).w;
            if kind == KHStore then w.bootstraps == [] else w.inits == 0
    ensures !Pass(e, Passes(e, Fresh(spec), views, n), view).1.Done?
  {
    hide Passes, Pass, Sleeps, Asleep;
    var s := Passes(e, Fresh(spec), views, n);
    RunSleeps(e, spec, views, n, kind);
    RunKeeps(e, spec, views, n);
    NeverRecorded(e, s, kind);
    PassKeeps(e, s, view);
    var t := Pass(e, s, view).0;
    PassSleeps(e, s, view, kind);
    StillNothing(s, t, kind);
    NeverRecorded(e, t, kind);
    StoredIsOrdered(e, t);
    assert t.log[|t.log| - 1] == t.w by { LastStored(e, t); }
  }

  lemma LastStored(e: Surroundings, s: State)
    requires Good(e, s)
    ensures |s.log| > 0 && s.log[|s.log| - 1] == s.w
  {
    hide Inv;
  }

  lemma StillNothing(s: State, t: State, kind: Kind)
    requires Asleep(s.w, kind) && NothingDone(Fresh(s.w.spec).w, s.w, kind) && Sleeps(s, t, kind)
    ensures NothingDone(Fresh(s.w.spec).w, t.w, kind)
  {
  }

  /** Without the call there is no record of it, in any world stored so far. */
  lemma NeverRecorded(e: Surroundings, s: State, kind: Kind)
    requires Good(e, s) && kind in {KHStore, KHServer}
    requires if kind == KHStore then s.w.bootstraps == [] else s.w.inits == 0
    ensures forall i :: 0 <= i < |s.log| ==> !IsTrue(s.log[i].conditions, ConditionOf(kind))
  {
    hide Bounded, Hashed, Sharded, Gated;
    forall i | 0 <= i < |s.log| ensures !IsTrue(s.log[i].conditions, ConditionOf(kind)) {
      assert Inv(e, s.log[i]);
      if i < |s.log| - 1 { assert Keeps(s.log[i], s.log[|s.log| - 1]); }
    }
  }
}
