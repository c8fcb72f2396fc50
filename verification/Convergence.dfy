/** Convergence: with nothing failing, no edits, and what was created up before the
    next pass, five passes are enough. Every pass brings a rank of four milestones down. */
module Convergence {
  import opened Text
  import opened Flags
  import opened Ports
  import opened Agreement
  import opened Api
  import opened Templates
  import opened Cluster
  import opened Steps
  import opened Settling

  // ---------- calm surroundings ----------

  /** A call that nothing disturbs. */
  ghost predicate Idle(t: Tick) {
    && t.env == Interference(None, 0, map[]) && t.fault == NoFault && !t.shardReadFails && !t.portReadFails
    && AllReachable(t.nodes)
  }

  ghost predicate Calm(e: Surroundings, s: State, t: State) {
    forall i :: s.clock <= i < t.clock ==> Idle(e.tape(i))
  }

  /** The workload is there with as many ready replicas as it asks for, and one at least. */
  predicate Up(w: World, kind: Kind) {
    && Workload(kind) in w.objects && w.objects[Workload(kind)].body.WorkloadBody?
    && w.objects[Workload(kind)].ready >= 1
    && w.objects[Workload(kind)].ready >= w.objects[Workload(kind)].body.template.replicas
  }

  ghost predicate AllUp(w: World) {
    forall kind :: Workload(kind) in w.objects ==> Up(w, kind)
  }

  /** A pass that reads the current resource, unedited since the last one, when everything
      created so far is up, and that nothing disturbs afterwards. */
  ghost predicate CalmPass(e: Surroundings, s: State, view: Read) {
    && view.Current? && e.tape(s.clock).env.spec.None?
    && AllUp(Call(e, s).w) && Calm(e, Call(e, s), Pass(e, s, view).0)
  }

  /** Everything the resource asks for can be built. */
  ghost predicate Buildable(spec: Spec) {
    && !CanPanic(spec)
    && (spec.externalHMeta.None? ==> Parse(spec.hMeta.container.args).Accepted())
    && (spec.console.Some? ==>
          ConsolePort(ConsoleTold(spec.console.value)).Ok?)
  }

  // ---------- the rank ----------

  predicate Recorded(w: World, c: Condition) { IsTrue(w.conditions, c) }

  /** The four milestones on the way to Ready. */
  ghost predicate Milestone(e: Surroundings, w: World, spec: Spec, m: nat) {
    match m
    case 0 => Part(e, w, spec, 2)
    case 1 => Recorded(w, HStoreReady) || Part(e, w, spec, 5)
    case 2 => Recorded(w, HStoreReady)
    case _ => Recorded(w, HServerReady) || Part(e, w, spec, 7)
  }

  ghost function Missed(e: Surroundings, w: World, spec: Spec, m: nat): nat {
    if Milestone(e, w, spec, m) then 0 else 1
  }

  /** How many milestones are still ahead. */
  ghost function Rank(e: Surroundings, w: World, spec: Spec): nat {
    Missed(e, w, spec, 0) + Missed(e, w, spec, 1) + Missed(e, w, spec, 2) + Missed(e, w, spec, 3)
  }

  // ---------- calm calls ----------

  lemma IdleCall(e: Surroundings, s: State)
    requires Idle(e.tape(s.clock))
    ensures Call(e, s).w == s.w && Call(e, s).copy == s.copy && Call(e, s).clock == s.clock + 1
    ensures FaultOf(e, Call(e, s)) == NoFault
  {
    assert Interfere(e.tape(s.clock).env, s.w).objects == s.w.objects;
  }

  /** The copy is what is stored. */
  predicate Synced(s: State) {
    s.copy.version == s.w.version && s.copy.spec == s.w.spec && s.copy.conditions == s.w.conditions
  }

  /** From `s` to `t` no ready count changes and no condition is lost. */
  ghost predicate Steady(s: State, t: State) {
    && t.w.spec == s.w.spec && t.copy.spec == s.copy.spec
    && (forall c :: Recorded(s.w, c) ==> Recorded(t.w, c))
    && (forall k :: k in s.w.objects ==> k in t.w.objects && t.w.objects[k].ready == s.w.objects[k].ready)
  }

  /** Only owned objects and ConfigMaps differ, and ready counts are as they were. */
  ghost predicate OnlyOwned(s: State, t: State) {
    && t.copy == s.copy && t.clock >= s.clock
    && t.w == s.w.(objects := t.w.objects, writes := t.w.writes, logDevice := t.w.logDevice, nshards := t.w.nshards)
    && forall k :: k in s.w.objects ==> k in t.w.objects && t.w.objects[k].ready == s.w.objects[k].ready
  }

  lemma OnlyOwnedSteady(s: State, t: State)
    requires Synced(s) && OnlyOwned(s, t)
    ensures Synced(t) && Steady(s, t)
  {
  }

  lemma CalmEnsure(e: Surroundings, s: State, key: Key, body: Body)
    ensures var (t, v) := Ensure(e, s, key, body);
            Calm(e, s, t) ==> OnlyOwned(s, t) && v.Go?
  {
    hide Interfere;
    if Calm(e, s, Ensure(e, s, key, body).0) {
      EnsureOwns(e, s, key, body);
      IdleCall(e, s);
      var s1 := Call(e, s);
      if !(key in s1.w.objects && s1.w.objects[key].hash == e.hash(key, body)) { IdleCall(e, s1); }
    }
  }

  /** A step that, undisturbed, only touches owned objects and goes on. */
  ghost predicate GoesOn(e: Surroundings, s: State, t: State, v: Verdict) {
    Calm(e, s, t) ==> OnlyOwned(s, t) && v.Go?
  }

  lemma ShardConfigGoesOn(e: Surroundings, s: State)
    ensures var (t, v) := ShardConfigPart(e, s);
            GoesOn(e, s, t, v)
  {
    hide Itoa, MinNShards, Interfere;
    ShardConfigSettles(e, s);
    if Calm(e, s, ShardConfigPart(e, s).0) {
      IdleCall(e, s);
      if s.w.nshards.None? { IdleCall(e, Call(e, s)); }
    }
  }

  lemma LogDeviceGoesOn(e: Surroundings, s: State)
    ensures var (t, v) := LogDeviceStep(e, s);
            GoesOn(e, s, t, v)
  {
    hide ConfigFor, Interfere, ShardConfigPart;
    LogDeviceSettles(e, s);
    var (t, v) := LogDeviceStep(e, s);
    if Calm(e, s, t) {
      var s1 := Call(e, s);
      LogDeviceForward(e, s);
      IdleCall(e, s);
      if s1.w.logDevice.Some? {
        ShardConfigGoesOn(e, s1);
      } else {
        var s2 := Call(e, s1);
        IdleCall(e, s1);
        ShardConfigGoesOn(e, Store(s2, s2.w.(logDevice := Some(ConfigFor(s2.copy.spec)), writes := s2.w.writes + 1)));
      }
    }
  }

  lemma LogDeviceForward(e: Surroundings, s: State)
    ensures LogDeviceStep(e, s).0.clock > s.clock
    ensures FaultOf(e, Call(e, s)) == NoFault && Call(e, s).w.logDevice.None? ==> LogDeviceStep(e, s).0.clock > s.clock + 1
  {
    hide ConfigFor, Interfere, ShardConfigPart;
    var s1 := Call(e, s);
    var s2 := Call(e, s1);
    ShardConfigSettles(e, s1);
    ShardConfigSettles(e, Store(s2, s2.w.(logDevice := Some(ConfigFor(s2.copy.spec)), writes := s2.w.writes + 1)));
  }

  lemma WorkloadGoesOn(e: Surroundings, s: State, kind: Kind, template: Result<Template>)
    requires template.Ok?
    ensures var (t, v) := WorkloadOf(e, s, kind, template);
            GoesOn(e, s, t, v)
  {
    hide Ensure;
    CalmEnsure(e, s, Workload(kind), WorkloadBody(template.value));
  }

  lemma ServiceGoesOn(e: Surroundings, s: State, kind: Kind, ports: Result<seq<ServicePort>>)
    requires ports.Ok?
    ensures var (t, v) := ServiceOf(e, s, kind, ports);
            GoesOn(e, s, t, v) && t.clock >= s.clock && t.copy == s.copy
  {
    hide Ensure;
    EnsureOwns(e, s, Service(kind), ServiceBody(ports.value));
    CalmEnsure(e, s, Service(kind), ServiceBody(ports.value));
  }

  lemma PortsBuildable(spec: Spec, kind: Kind)
    requires Buildable(spec) && kind in SERVICED && (kind == KHMeta ==> spec.externalHMeta.None?)
    ensures ContainerServicePorts(spec, kind).Ok?
  {
    hide Cover, ExtendWith, ToService, Run, LoneDashAt;
    PanicExactlyAtLoneDash(spec.hMeta.container.args);
    PanicExactlyAtLoneDash(spec.adminServer.container.args);
    PanicExactlyAtLoneDash(spec.hStore.container.args);
    PanicExactlyAtLoneDash(spec.hServer.container.args);
  }

  lemma GoesOnThen(e: Surroundings, a: State, b: State, c: State, v: Verdict)
    requires GoesOn(e, a, b, Go) && GoesOn(e, b, c, v) && a.clock <= b.clock <= c.clock
    ensures GoesOn(e, a, c, v)
  {
  }

  lemma ServicesGoOn(e: Surroundings, s: State)
    requires Buildable(s.copy.spec)
    ensures var (t, v) := ServicesStep(e, s);
            GoesOn(e, s, t, v)
  {
    hide ServiceOf, ContainerServicePorts, Buildable, GoesOn;
    var spec := s.copy.spec;
    var (s1, v1) := HMetaServiceOf(e, s);
    HMetaServiceGoesOn(e, s);
    if v1.Go? {
      var p2 := ContainerServicePorts(spec, KAdminServer);
      PortsBuildable(spec, KAdminServer);
      ServiceGoesOn(e, s1, KAdminServer, p2);
      var (s2, v2) := ServiceOf(e, s1, KAdminServer, p2);
      GoesOnThen(e, s, s1, s2, v2);
      if v2.Go? {
        var p3 := ContainerServicePorts(spec, KHStore);
        PortsBuildable(spec, KHStore);
        ServiceGoesOn(e, s2, KHStore, p3);
        var (s3, v3) := ServiceOf(e, s2, KHStore, p3);
        GoesOnThen(e, s, s2, s3, v3);
        if v3.Go? {
          var p4 := ContainerServicePorts(spec, KHServer);
          PortsBuildable(spec, KHServer);
          ServiceGoesOn(e, s3, KHServer, p4);
          var (s4, v4) := ServiceOf(e, s3, KHServer, p4);
          GoesOnThen(e, s, s3, s4, v4);
        }
      }
    }
    ServicesUnfold(e, s);
  }

  lemma HMetaServiceGoesOn(e: Surroundings, s: State)
    requires Buildable(s.copy.spec)
    ensures var (t, v) := HMetaServiceOf(e, s);
            GoesOn(e, s, t, v) && t.clock >= s.clock && t.copy == s.copy
  {
    hide ServiceOf, HMetaServicePorts, Buildable;
    if s.copy.spec.externalHMeta.None? {
      PortsBuildable(s.copy.spec, KHMeta);
      ServiceGoesOn(e, s, KHMeta, ContainerServicePorts(s.copy.spec, KHMeta));
    }
  }

  // ---------- the steps that write status ----------

  lemma CalmStatusWrite(e: Surroundings, s: State)
    requires s.copy.version == s.w.version && s.copy.spec == s.w.spec
    ensures var (t, err) := StatusWrite(e, s);
            && t.clock >= s.clock
            && (Calm(e, s, t) ==>
                  && err.None? && Synced(t) && t.copy == s.copy.(version := t.copy.version)
                  && t.w == s.w.(conditions := s.copy.conditions, nodes := s.copy.nodes, version := t.w.version))
  {
    hide Interfere;
    StatusWriteOwns(e, s);
    if Calm(e, s, StatusWrite(e, s).0) { IdleCall(e, s); }
  }

  /** Where an undisturbed pass may end before its last step. */
  ghost predicate Blocked(s: State, t: State, i: nat) {
    match i
    case 3 => s.copy.spec.externalHMeta.None? && !Up(s.w, KHMeta)
    case 6 => !Recorded(s.w, HStoreReady) && (Recorded(t.w, HStoreReady) || !Up(s.w, KHStore))
    case 8 => !Recorded(s.w, HServerReady) && !Up(s.w, KHServer)
    case _ => false
  }

  /** The condition a step leaves recorded when it goes on. */
  predicate Gains(w: World, i: nat) {
    match i
    case 3 => Recorded(w, HMetaReady)
    case 6 => Recorded(w, HStoreReady)
    case 8 => Recorded(w, HServerReady)
    case 11 => Recorded(w, Ready)
    case _ => true
  }

  ghost predicate Advances(e: Surroundings, s: State, t: State, v: Verdict, i: nat) {
    Calm(e, s, t) ==>
      Synced(t) && Steady(s, t)
      && if v.Go? then Gains(t.w, i) else v.Stop? && !v.requeue.delayed && Blocked(s, t, i)
  }

  lemma GoesOnAdvances(e: Surroundings, s: State, t: State, v: Verdict, i: nat)
    requires Synced(s) && GoesOn(e, s, t, v) && i !in {3, 6, 8, 11}
    ensures Advances(e, s, t, v, i)
  {
    if Calm(e, s, t) { OnlyOwnedSteady(s, t); }
  }

  /** A call of an undisturbed stretch: only the clock and the log move. */
  lemma FirstCall(e: Surroundings, s: State, t: State)
    requires Calm(e, s, t) && t.clock > s.clock
    ensures var u := Call(e, s);
            && u.w == s.w && u.copy == s.copy && u.clock == s.clock + 1 && FaultOf(e, u) == NoFault
            && Idle(TickOf(e, u)) && Calm(e, u, t)
  {
    IdleCall(e, s);
  }

  lemma HMetaClusterAdvances(e: Surroundings, s: State)
    ensures var (t, v) := HMetaClusterPart(e, s);
            && t.clock > s.clock
            && (Synced(s) && Calm(e, s, t) ==> v.Go? && Synced(t) && Steady(s, t) && Recorded(t.w, HMetaReady))
  {
    hide Interfere, StatusWrite, AllReachable;
    var t := HMetaClusterPart(e, s).0;
    var s1 := Call(e, s);
    var asked := WithCondition(s1.(copy := s1.copy.(nodes := TickOf(e, s1).nodes)), HMetaReady, true);
    StatusWriteOwns(e, asked);
    if Synced(s) && Calm(e, s, t) {
      FirstCall(e, s, t);
      CalmStatusWrite(e, asked);
    }
  }

  lemma HMetaStatusAdvances(e: Surroundings, s: State)
    requires Synced(s)
    ensures var (t, v) := HMetaStatusStep(e, s);
            Advances(e, s, t, v, 3)
  {
    hide Interfere, HMetaClusterPart;
    var t := HMetaStatusStep(e, s).0;
    if Calm(e, s, t) {
      if s.copy.spec.externalHMeta.Some? {
        HMetaClusterAdvances(e, s);
      } else {
        HMetaClusterAdvances(e, Call(e, s));
        FirstCall(e, s, t);
      }
    }
  }

  lemma BootstrapHStoreAdvances(e: Surroundings, s: State)
    requires Synced(s)
    ensures var (t, v) := BootstrapHStoreStep(e, s);
            Advances(e, s, t, v, 6)
  {
    hide Interfere, BootstrapRecordPart;
    var t := BootstrapHStoreStep(e, s).0;
    if Calm(e, s, t) && !IsTrue(s.copy.conditions, HStoreReady) {
      var s1 := Call(e, s);
      var s2 := Call(e, s1);
      var ready := Running(e, s1, KHStore);
      if ready.Some? { BootstrapRecordRests(e, s2, ready.value); }
      FirstCall(e, s, t);
      if ready.Some? {
        FirstCall(e, s1, t);
        BootstrapRecorded(e, s2, ready.value);
      }
    }
  }

  lemma BootstrapRecorded(e: Surroundings, s: State, ready: nat)
    requires Synced(s)
    ensures var (t, v) := BootstrapRecordPart(e, s, ready);
            Calm(e, s, t) ==> Synced(t) && Steady(s, t) && Recorded(t.w, HStoreReady) && v == Waiting("", 1)
  {
    hide StatusWrite, MetadataReplication;
    var spec := s.copy.spec;
    var b := Bootstrap(MetadataReplication(spec), spec.hStore.replicas, spec.metadataReplicateAcross, ready);
    CalmStatusWrite(e, WithCondition(Store(s, s.w.(bootstraps := s.w.bootstraps + [b])), HStoreReady, true));
  }

  lemma BootstrapHServerAdvances(e: Surroundings, s: State)
    requires Synced(s)
    ensures var (t, v) := BootstrapHServerStep(e, s);
            Advances(e, s, t, v, 8)
  {
    hide Interfere, InitRecordPart;
    var t := BootstrapHServerStep(e, s).0;
    if Calm(e, s, t) && !IsTrue(s.copy.conditions, HServerReady) {
      var s1 := Call(e, s);
      var s2 := Call(e, s1);
      InitRecorded(e, s2);
      FirstCall(e, s, t);
      if Running(e, s1, KHServer).Some? { FirstCall(e, s1, t); }
    }
  }

  lemma InitRecorded(e: Surroundings, s: State)
    ensures var (t, v) := InitRecordPart(e, s);
            && t.clock >= s.clock
            && (Synced(s) && Calm(e, s, t) ==> Synced(t) && Steady(s, t) && Recorded(t.w, HServerReady) && v.Go?)
  {
    hide StatusWrite, Interfere;
    var asked := WithCondition(Store(s, s.w.(inits := s.w.inits + 1)), HServerReady, true);
    StatusWriteOwns(e, asked);
    if Synced(s) { CalmStatusWrite(e, asked); }
  }

  /** `checkComponentsReady`: with the component there, its condition is set in the copy. */
  lemma ComponentAdvances(e: Surroundings, s: State, wanted: bool, kind: Kind, c: Condition)
    requires wanted ==> Workload(kind) in s.w.objects
    ensures var (t, v) := ComponentPart(e, s, wanted, kind, c);
            && t.clock >= s.clock
            && (Calm(e, s, t) ==>
                  && v.Go? && t.w == s.w
                  && t.copy == if wanted then s.copy.(conditions := s.copy.conditions[c := true]) else s.copy)
  {
    hide Interfere;
    if Calm(e, s, ComponentPart(e, s, wanted, kind, c).0) && wanted { IdleCall(e, s); }
  }

  lemma StatusAdvances(e: Surroundings, s: State)
    requires Synced(s) && Recorded(s.w, HMetaReady) && Recorded(s.w, HStoreReady) && Recorded(s.w, HServerReady)
    requires s.copy.spec.gateway.Some? ==> Workload(KGateway) in s.w.objects
    requires s.copy.spec.console.Some? ==> Workload(KConsole) in s.w.objects
    ensures var (t, v) := StatusStep(e, s);
            Advances(e, s, t, v, 11)
  {
    hide Interfere, StatusWrite, ComponentsPart;
    ComponentsAdvance(e, s);
    var (s1, v) := ComponentsPart(e, s);
    var asked := WithCondition(s1, Ready, AllReady(s1.copy));
    StatusWriteOwns(e, asked);
    if Calm(e, s, StatusStep(e, s).0) {
      CalmStatusWrite(e, asked);
    }
  }

  lemma ComponentsAdvance(e: Surroundings, s: State)
    requires s.copy.spec.gateway.Some? ==> Workload(KGateway) in s.w.objects
    requires s.copy.spec.console.Some? ==> Workload(KConsole) in s.w.objects
    ensures var (t, v) := ComponentsPart(e, s);
            && t.clock >= s.clock
            && (Calm(e, s, t) ==>
                  && v.Go? && t.w == s.w && t.copy == s.copy.(conditions := t.copy.conditions)
                  && (forall c :: IsTrue(s.copy.conditions, c) ==> IsTrue(t.copy.conditions, c))
                  && (s.copy.spec.gateway.Some? ==> IsTrue(t.copy.conditions, GatewayReady))
                  && (s.copy.spec.console.Some? ==> IsTrue(t.copy.conditions, ConsoleReady)))
  {
    hide ComponentPart;
    var gateway, console := s.copy.spec.gateway.Some?, s.copy.spec.console.Some?;
    if e.tape(s.clock).gatewayFirst {
      InOrder(e, s, gateway, KGateway, GatewayReady, console, KConsole, ConsoleReady);
    } else {
      InOrder(e, s, console, KConsole, ConsoleReady, gateway, KGateway, GatewayReady);
    }
  }

  /** One component after the other. */
  lemma InOrder(e: Surroundings, s: State, wanted: bool, kind: Kind, c: Condition, wanted': bool, kind': Kind, c': Condition)
    requires wanted ==> Workload(kind) in s.w.objects
    requires wanted' ==> Workload(kind') in s.w.objects
    ensures var (s1, v1) := ComponentPart(e, s, wanted, kind, c);
            var (t, v) := if v1.Go? then ComponentPart(e, s1, wanted', kind', c') else (s1, v1);
            && t.clock >= s.clock
            && (Calm(e, s, t) ==>
                  && v.Go? && t.w == s.w && t.copy == s.copy.(conditions := t.copy.conditions)
                  && (forall c :: IsTrue(s.copy.conditions, c) ==> IsTrue(t.copy.conditions, c))
                  && (wanted ==> IsTrue(t.copy.conditions, c))
                  && (wanted' ==> IsTrue(t.copy.conditions, c')))
  {
    hide ComponentPart;
    var s1 := ComponentPart(e, s, wanted, kind, c).0;
    ComponentAdvances(e, s, wanted, kind, c);
    ComponentRests(e, s1, wanted', kind', c');
    if s1.w == s.w { ComponentAdvances(e, s1, wanted', kind', c'); }
  }

  // ---------- a pass ----------

  lemma HStoreGoesOn(e: Surroundings, s: State)
    requires Buildable(s.copy.spec)
    ensures var (t, v) := HStoreStep(e, s);
            GoesOn(e, s, t, v)
  {
    hide Interfere, HStoreTemplate, WorkloadOf, HMetaTemplate, AdminServerTemplate, HServerTemplate, ConsoleTemplate, HServerPanics, ConsolePanics;
    var s1 := Call(e, s);
    var template := HStoreTemplate(s1.copy.spec, ShardsSeen(e, s1));
    PanicsExactly(s.copy.spec, ShardsSeen(e, s1));
    var (t, v) := WorkloadOf(e, s1, KHStore, template);
    WorkloadSettles(e, s1, KHStore, template);
    WorkloadGoesOn(e, s1, KHStore, template);
    if Calm(e, s, t) { FirstCall(e, s, t); }
  }

  lemma GatewayGoesOn(e: Surroundings, s: State)
    requires Synced(s) && Recorded(s.w, HServerReady)
    ensures var (t, v) := GatewayStep(e, s);
            GoesOn(e, s, t, v)
  {
    hide Interfere, GatewayTemplate, Ensure, HServerPortSeen;
    if s.copy.spec.gateway.Some? {
      var s1 := Call(e, s);
      var body := WorkloadBody(GatewayTemplate(s1.copy.spec.instance, s1.copy.spec.gateway.value, HServerPortSeen(e, s1)));
      EnsureOwns(e, s1, Workload(KGateway), body);
      CalmEnsure(e, s1, Workload(KGateway), body);
      if Calm(e, s, GatewayStep(e, s).0) { FirstCall(e, s, GatewayStep(e, s).0); }
    }
  }

  /** What holds before step `i` of an undisturbed pass. */
  ghost predicate CalmStage(e: Surroundings, s: State, i: nat) {
    && Synced(s) && Settled(e, s.w, s.copy.spec, i)
    && (i >= 4 ==> Recorded(s.w, HMetaReady))
    && (i >= 7 ==> Recorded(s.w, HStoreReady))
    && (i >= 9 ==> Recorded(s.w, HServerReady))
    && (i >= 12 ==> Recorded(s.w, Ready))
  }

  lemma StepAdvances(e: Surroundings, s: State, i: nat)
    requires i < |STEPS| && CalmStage(e, s, i) && Buildable(s.copy.spec)
    ensures var (t, v) := RunStep(e, s, STEPS[i]);
            Advances(e, s, t, v, i)
  {
    hide LogDeviceStep, ServicesStep, HMetaStep, HMetaStatusStep, AdminServerStep, HStoreStep, BootstrapHStoreStep, HServerStep,
         BootstrapHServerStep, GatewayStep, ConsoleStep, StatusStep, Settled, Advances, Buildable;
    var (t, v) := RunStep(e, s, STEPS[i]);
    if i == 3 { HMetaStatusAdvances(e, s); }
    else if i == 6 { BootstrapHStoreAdvances(e, s); }
    else if i == 8 { BootstrapHServerAdvances(e, s); }
    else if i == 11 { ComponentsThere(e, s); StatusAdvances(e, s); }
    else { OwnedStepGoesOn(e, s, i); GoesOnAdvances(e, s, t, v, i); }
  }

  lemma ComponentsThere(e: Surroundings, s: State)
    requires CalmStage(e, s, 11)
    ensures s.copy.spec.gateway.Some? ==> Workload(KGateway) in s.w.objects
    ensures s.copy.spec.console.Some? ==> Workload(KConsole) in s.w.objects
  {
    hide GatewayTemplate, ConsoleTemplate, LiveHServerPort;
    assert Part(e, s.w, s.copy.spec, 9) && Part(e, s.w, s.copy.spec, 10);
  }

  lemma OwnedStepGoesOn(e: Surroundings, s: State, i: nat)
    requires i < |STEPS| && i !in {3, 6, 8, 11} && CalmStage(e, s, i) && Buildable(s.copy.spec)
    ensures var (t, v) := RunStep(e, s, STEPS[i]);
            GoesOn(e, s, t, v)
  {
    hide LogDeviceStep, ServicesStep, HStoreStep, GatewayStep, WorkloadOf, Settled, GoesOn,
         HMetaTemplate, AdminServerTemplate, HStoreTemplate, HServerTemplate, HServerPanics, ConsolePanics;
    var spec := s.copy.spec;
    PanicsExactly(spec, 0);
    if i == 0 { LogDeviceGoesOn(e, s); }
    else if i == 1 { ServicesGoOn(e, s); }
    else if i == 2 { if spec.externalHMeta.Some? { StaysGoesOn(e, s); } else { WorkloadGoesOn(e, s, KHMeta, HMetaTemplate(spec)); } }
    else if i == 4 { WorkloadGoesOn(e, s, KAdminServer, AdminServerTemplate(spec)); }
    else if i == 5 { HStoreGoesOn(e, s); }
    else if i == 7 { WorkloadGoesOn(e, s, KHServer, HServerTemplate(spec)); }
    else if i == 9 { GatewayGoesOn(e, s); }
    else { if spec.console.None? { StaysGoesOn(e, s); } else { ConsoleBuildable(spec); WorkloadGoesOn(e, s, KConsole, ConsoleTemplate(spec, spec.console.value)); } }
  }

  lemma StaysGoesOn(e: Surroundings, s: State)
    ensures GoesOn(e, s, s, Go)
  {
  }

  lemma ConsoleBuildable(spec: Spec)
    requires Buildable(spec) && spec.console.Some?
    ensures ConsoleTemplate(spec, spec.console.value).Ok?
  {
    hide HMetaTemplate, AdminServerTemplate, HStoreTemplate, HServerTemplate, ConsoleTemplate, HServerPanics, ConsolePanics, Run;
    PanicsExactly(spec, 0);
  }

  // ---------- progress ----------

  function KindOf(j: nat): Kind {
    match j
    case 2 => KHMeta
    case 5 => KHStore
    case _ => KHServer
  }

  /** The workload of step `j` is up to date and up, if the resource wants it. */
  ghost predicate Holds(e: Surroundings, w: World, spec: Spec, j: nat) {
    Part(e, w, spec, j) && ((j == 2 && spec.externalHMeta.Some?) || Up(w, KindOf(j)))
  }

  lemma HoldsStill(e: Surroundings, s: State, t: State, v: Verdict, i: nat, j: nat)
    requires j in {2, 5, 7} && Holds(e, s.w, s.copy.spec, j)
    requires i < |STEPS| && LeavesSettled(e, s, t, v, i) && SwallowedReadsSucceed(e, s, t) && Needs(s.w, i) && Steady(s, t)
    ensures Holds(e, t.w, s.copy.spec, j)
  {
    hide Part;
    var key := Workload(KindOf(j));
    if i == j {
      PartFrame(e, s.w, t.w, s.copy.spec, j, {});
    } else {
      assert WrittenBy(i) !! KeysOf(j);
      assert key in KeysOf(j);
      PartFrame(e, s.w, t.w, s.copy.spec, j, WrittenBy(i));
    }
  }

  /** Nothing reached when the pass began has been lost, and what was up to date is up. */
  ghost predicate Since(e: Surroundings, w0: World, w: World, spec: Spec) {
    && (forall c :: Recorded(w0, c) ==> Recorded(w, c))
    && forall j :: j in {2, 5, 7} && Part(e, w0, spec, j) ==> Holds(e, w, spec, j)
  }

  lemma SinceStill(e: Surroundings, w0: World, s: State, t: State, v: Verdict, i: nat)
    requires Since(e, w0, s.w, s.copy.spec)
    requires i < |STEPS| && LeavesSettled(e, s, t, v, i) && SwallowedReadsSucceed(e, s, t) && Needs(s.w, i) && Steady(s, t)
    ensures Since(e, w0, t.w, s.copy.spec)
  {
    hide Part, LeavesSettled, Steady, Holds;
    forall c | Recorded(w0, c) ensures Recorded(t.w, c) { SteadyRecords(s, t, c); }
    forall j | j in {2, 5, 7} && Part(e, w0, s.copy.spec, j) ensures Holds(e, t.w, s.copy.spec, j) {
      HoldsStill(e, s, t, v, i, j);
    }
  }

  lemma SteadyRecords(s: State, t: State, c: Condition)
    requires Steady(s, t) && Recorded(s.w, c)
    ensures Recorded(t.w, c)
  {
  }

  /** With nothing lost and one milestone reached, the rank is lower. */
  lemma RankDrops(e: Surroundings, w0: World, w: World, spec: Spec, m: nat)
    requires Since(e, w0, w, spec) && m < 4
    requires !Milestone(e, w0, spec, m) && Milestone(e, w, spec, m)
    ensures Rank(e, w, spec) < Rank(e, w0, spec)
  {
    hide Part;
    forall k: nat | k < 4 && Milestone(e, w0, spec, k) ensures Milestone(e, w, spec, k) {
      assert Holds(e, w, spec, 2) ==> Part(e, w, spec, 2);
      assert Holds(e, w, spec, 5) ==> Part(e, w, spec, 5);
      assert Holds(e, w, spec, 7) ==> Part(e, w, spec, 7);
    }
    assert forall k: nat :: k < 4 ==> Missed(e, w, spec, k) <= Missed(e, w0, spec, k);
    assert Missed(e, w, spec, m) < Missed(e, w0, spec, m);
  }

  /** A pass that ends early has just reached a milestone. */
  lemma BlockedDrops(e: Surroundings, w0: World, s: State, t: State, i: nat)
    requires i < |STEPS| && Blocked(s, t, i) && Since(e, w0, s.w, s.copy.spec) && Since(e, w0, t.w, s.copy.spec)
    requires Settled(e, t.w, s.copy.spec, i)
    ensures Rank(e, t.w, s.copy.spec) < Rank(e, w0, s.copy.spec)
  {
    hide Part, Rank;
    var spec := s.copy.spec;
    if i == 3 {
      assert !Holds(e, s.w, spec, 2);
      assert Part(e, t.w, spec, 2);
      RankDrops(e, w0, t.w, spec, 0);
    } else if i == 6 {
      if Recorded(t.w, HStoreReady) {
        RankDrops(e, w0, t.w, spec, 2);
      } else {
        assert !Holds(e, s.w, spec, 5);
        assert Part(e, t.w, spec, 5);
        RankDrops(e, w0, t.w, spec, 1);
      }
    } else {
      assert !Holds(e, s.w, spec, 7);
      assert Part(e, t.w, spec, 7);
      RankDrops(e, w0, t.w, spec, 3);
    }
  }

  lemma {:induction false} RunFromAdvances(e: Surroundings, w0: World, s: State, i: nat)
    requires i <= |STEPS| && CalmStage(e, s, i) && Buildable(s.copy.spec) && Since(e, w0, s.w, s.copy.spec)
    requires Calm(e, s, RunFrom(e, s, i, false).0)
    ensures var (t, o) := RunFrom(e, s, i, false);
            && Synced(t) && t.copy.spec == s.copy.spec
            && if o.Done? then Recorded(t.w, Ready) else Rank(e, t.w, s.copy.spec) < Rank(e, w0, s.copy.spec)
    decreases |STEPS| - i
  {
    hide RunStep, Settled, Since, Rank, Blocked, Buildable, LeavesSettled;
    if i < |STEPS| {
      var (t, v) := RunStep(e, s, STEPS[i]);
      RunFromForward(e, t, i + 1, false);
      RunFromForward(e, t, i + 1, true);
      StepMoves(e, w0, s, i);
      if v.Go? {
        RunFromAdvances(e, w0, t, i + 1);
      } else {
        BlockedDrops(e, w0, s, t, i);
      }
    }
  }

  /** One step of an undisturbed pass. */
  lemma StepMoves(e: Surroundings, w0: World, s: State, i: nat)
    requires i < |STEPS| && CalmStage(e, s, i) && Buildable(s.copy.spec) && Since(e, w0, s.w, s.copy.spec)
    ensures var (t, v) := RunStep(e, s, STEPS[i]);
            && t.clock >= s.clock
            && (Calm(e, s, t) ==>
                  && t.copy.spec == s.copy.spec && Synced(t) && Since(e, w0, t.w, s.copy.spec)
                  && if v.Go? then CalmStage(e, t, i + 1)
                     else v.Stop? && !v.requeue.delayed && Blocked(s, t, i) && Settled(e, t.w, s.copy.spec, i))
  {
    hide RunStep, Since, Blocked, Buildable, Part;
    var (t, v) := RunStep(e, s, STEPS[i]);
    StepSettles(e, s, i);
    StepAdvances(e, s, i);
    PartsNeeded(e, s.w, s.copy.spec, i);
    if Calm(e, s, t) {
      assert SwallowedReadsSucceed(e, s, t);
      SettledFrame(e, s.w, t.w, s.copy.spec, i);
      SinceStill(e, w0, s, t, v, i);
    }
  }

  /** An undisturbed pass is done with Ready stored, or brings the rank down. */
  lemma PassAdvances(e: Surroundings, s: State, view: Read)
    requires CalmPass(e, s, view) && Buildable(s.w.spec)
    ensures var (t, o) := Pass(e, s, view);
            && t.w.spec == s.w.spec
            && if o.Done? then Recorded(t.w, Ready) else Rank(e, t.w, s.w.spec) < Rank(e, s.w, s.w.spec)
  {
    hide RunFrom, Rank, Buildable, Part;
    var s1 := Call(e, s);
    CallOwns(e, s);
    var b := Begin(s1, view);
    SinceBegan(e, s1.w, s.w.spec);
    RunFromAdvances(e, s1.w, b, 0);
    RankSame(e, s.w, s1.w, s.w.spec);
  }

  lemma SinceBegan(e: Surroundings, w: World, spec: Spec)
    requires AllUp(w)
    ensures Since(e, w, w, spec)
  {
    hide HMetaTemplate, HStoreTemplate, HServerTemplate, Up;
  }

  lemma RankSame(e: Surroundings, w: World, v: World, spec: Spec)
    requires SameOwned(w, v) && v.conditions == w.conditions
    ensures Rank(e, v, spec) <= Rank(e, w, spec)
  {
    hide Part;
    forall j | j in {2, 5, 7} && Part(e, w, spec, j) ensures Part(e, v, spec, j) {
      PartFrame(e, w, v, spec, j, {});
    }
  }

  /** `n` undisturbed passes over a resource that can be built. */
  ghost predicate CalmPasses(e: Surroundings, s: State, views: nat -> Read, n: nat) {
    forall k :: 0 <= k < n ==> CalmPass(e, Passes(e, s, views, k), views(k))
  }

  /** The pass after `k` others is done. */
  ghost predicate DoneAt(e: Surroundings, s: State, views: nat -> Read, k: nat) {
    Pass(e, Passes(e, s, views, k), views(k)).1.Done?
  }

  ghost predicate NoneDone(e: Surroundings, s: State, views: nat -> Read, n: nat) {
    forall k: nat | k < n :: !DoneAt(e, s, views, k)
  }

  lemma OnePassMore(e: Surroundings, s: State, views: nat -> Read, k: nat)
    ensures Passes(e, s, views, k + 1) == Pass(e, Passes(e, s, views, k), views(k)).0
  {
    hide Pass;
  }

  /** What is known of `k + 1` passes, told of the first `k` and of the last. */
  lemma LastPass(e: Surroundings, s: State, views: nat -> Read, k: nat)
    requires CalmPasses(e, s, views, k + 1) && NoneDone(e, s, views, k + 1)
    ensures CalmPasses(e, s, views, k) && NoneDone(e, s, views, k)
    ensures CalmPass(e, Passes(e, s, views, k), views(k)) && !Pass(e, Passes(e, s, views, k), views(k)).1.Done?
  {
    hide Pass, Passes, CalmPass;
    assert !DoneAt(e, s, views, k);
  }

  lemma {:induction false} RankAfter(e: Surroundings, s: State, views: nat -> Read, n: nat)
    requires CalmPasses(e, s, views, n) && Buildable(s.w.spec) && NoneDone(e, s, views, n)
    ensures Passes(e, s, views, n).w.spec == s.w.spec
    ensures Rank(e, Passes(e, s, views, n).w, s.w.spec) + n <= Rank(e, s.w, s.w.spec)
    decreases n
  {
    hide Pass, Rank, Buildable, CalmPass, CalmPasses, NoneDone;
    if n > 0 {
      hide Passes;
      LastPass(e, s, views, n - 1);
      RankAfter(e, s, views, n - 1);
      PassAdvances(e, Passes(e, s, views, n - 1), views(n - 1));
      OnePassMore(e, s, views, n - 1);
    }
  }

  /** Convergence: from any state, among five undisturbed passes over an unedited
      resource one is done, and then Ready is stored. */
  lemma Converges(e: Surroundings, s: State, views: nat -> Read) returns (k: nat)
    requires CalmPasses(e, s, views, 5) && Buildable(s.w.spec)
    ensures k < 5
    ensures Pass(e, Passes(e, s, views, k), views(k)).1 == Done
    ensures Recorded(Passes(e, s, views, k + 1).w, Ready)
  {
    hide Pass, Passes, Buildable, CalmPass, Milestone;
    if NoneDone(e, s, views, 5) {
      RankAfter(e, s, views, 5);
      assert false;
    }
    k := 0;
    while !DoneAt(e, s, views, k)
      invariant k < 5
      invariant NoneDone(e, s, views, k)
      decreases 5 - k
    {
      k := k + 1;
    }
    RankAfter(e, s, views, k);
    assert CalmPass(e, Passes(e, s, views, k), views(k));
    PassAdvances(e, Passes(e, s, views, k), views(k));
    OnePassMore(e, s, views, k);
  }
}
