/** When a pass panics: exactly at a step that builds something which cannot be built. */
module Panics {
  import opened Text
  import opened Flags
  import opened Ports
  import opened Agreement
  import opened Api
  import opened Templates
  import opened Cluster
  import opened Steps
  import opened Settling

  /** What step `i` builds for the resource panics. */
  ghost predicate StepPanics(spec: Spec, i: nat) {
    match i
    case 1 =>
      || (spec.externalHMeta.None? && ReachesLoneDash(spec.hMeta.container.args))
      || ReachesLoneDash(spec.adminServer.container.args)
      || ReachesLoneDash(spec.hStore.container.args)
      || ReachesLoneDash(spec.hServer.container.args)
    case 2 => spec.externalHMeta.None? && ReachesLoneDash(spec.hMeta.container.args)
    case 4 => ReachesLoneDash(spec.adminServer.container.args)
    case 5 => ReachesLoneDash(spec.hStore.container.args)
    case 7 => HServerPanics(spec)
    case 10 => spec.console.Some? && ConsolePanics(spec, spec.console.value)
    case _ => false
  }

  /** The resource can make the program panic exactly when some step's building panics. */
  lemma SomeStepPanics(spec: Spec)
    ensures CanPanic(spec) <==> exists i: nat :: i < |STEPS| && StepPanics(spec, i)
  {
    hide HServerPanics, ConsolePanics, ReachesLoneDash;
    if CanPanic(spec) {
      assert StepPanics(spec, 1) || StepPanics(spec, 7) || StepPanics(spec, 10) by { HServerPanicsOnOwn(spec); }
    }
    if i: nat :| i < |STEPS| && StepPanics(spec, i) { HServerPanicsOnOwn(spec); }
  }

  lemma HServerPanicsOnOwn(spec: Spec)
    ensures ReachesLoneDash(spec.hServer.container.args) ==> HServerPanics(spec)
  {
    hide ReachesLoneDash;
  }

  /** A workload step panics exactly when its template does. */
  lemma WorkloadCrashes(e: Surroundings, s: State, kind: Kind, template: Result<Template>)
    ensures WorkloadOf(e, s, kind, template).1.Crash? <==> template.Panic?
  {
    hide Interfere;
  }

  lemma ServiceCrashes(e: Surroundings, s: State, kind: Kind, ports: Result<seq<ServicePort>>)
    ensures ServiceOf(e, s, kind, ports).1.Crash? <==> ports.Panic?
  {
    hide Interfere;
  }

  lemma PortsPanic(spec: Spec)
    ensures ContainerServicePorts(spec, KHMeta).Panic? <==> ReachesLoneDash(spec.hMeta.container.args)
    ensures ContainerServicePorts(spec, KAdminServer).Panic? <==> ReachesLoneDash(spec.adminServer.container.args)
    ensures ContainerServicePorts(spec, KHStore).Panic? <==> ReachesLoneDash(spec.hStore.container.args)
    ensures ContainerServicePorts(spec, KHServer).Panic? <==> ReachesLoneDash(spec.hServer.container.args)
  {
    hide Cover, ExtendWith, ToService, Run, LoneDashAt;
    PanicExactlyAtLoneDash(spec.hMeta.container.args);
    PanicExactlyAtLoneDash(spec.adminServer.container.args);
    PanicExactlyAtLoneDash(spec.hStore.container.args);
    PanicExactlyAtLoneDash(spec.hServer.container.args);
  }

  lemma ServicesCrash(e: Surroundings, s: State)
    ensures var v := ServicesStep(e, s).1;
            && (v.Crash? ==> StepPanics(s.copy.spec, 1))
            && (v.Go? ==> !StepPanics(s.copy.spec, 1))
  {
    hide ServiceOf, ContainerServicePorts, ReachesLoneDash;
    var spec := s.copy.spec;
    PortsPanic(spec);
    ServicesUnfold(e, s);
    HMetaServiceCrashes(e, s);
    var s1 := HMetaServiceOf(e, s).0;
    ServiceCrashes(e, s1, KAdminServer, ContainerServicePorts(spec, KAdminServer));
    var s2 := ServiceOf(e, s1, KAdminServer, ContainerServicePorts(spec, KAdminServer)).0;
    ServiceCrashes(e, s2, KHStore, ContainerServicePorts(spec, KHStore));
    var s3 := ServiceOf(e, s2, KHStore, ContainerServicePorts(spec, KHStore)).0;
    ServiceCrashes(e, s3, KHServer, ContainerServicePorts(spec, KHServer));
  }

  lemma HMetaServiceCrashes(e: Surroundings, s: State)
    ensures HMetaServiceOf(e, s).1.Crash? <==>
            s.copy.spec.externalHMeta.None? && ContainerServicePorts(s.copy.spec, KHMeta).Panic?
  {
    hide ServiceOf, HMetaServicePorts;
    ServiceCrashes(e, s, KHMeta, ContainerServicePorts(s.copy.spec, KHMeta));
  }

  /** These steps build nothing that can panic. */
  lemma NeverCrashes(e: Surroundings, s: State)
    ensures !LogDeviceStep(e, s).1.Crash? && !GatewayStep(e, s).1.Crash?
    ensures !BootstrapHStoreStep(e, s).1.Crash? && !BootstrapHServerStep(e, s).1.Crash?
  {
    hide Interfere, StatusWrite, ConfigFor, GatewayTemplate, Running, Itoa, MetadataReplication, HServerPortSeen;
  }

  lemma StatusNeverCrashes(e: Surroundings, s: State)
    ensures !HMetaStatusStep(e, s).1.Crash? && !StatusStep(e, s).1.Crash?
  {
    hide Interfere, StatusWrite, Running, AllReachable, AllReady;
  }

  /** A step panics only if what it builds does, and then does not go on; a workload step exactly then. */
  lemma StepCrashes(e: Surroundings, s: State, i: nat)
    requires i < |STEPS|
    ensures var v := RunStep(e, s, STEPS[i]).1;
            && (v.Crash? ==> StepPanics(s.copy.spec, i))
            && (v.Go? ==> !StepPanics(s.copy.spec, i))
            && (i != 1 ==> (v.Crash? <==> StepPanics(s.copy.spec, i)))
  {
    hide LogDeviceStep, ServicesStep, HMetaStatusStep, BootstrapHStoreStep, BootstrapHServerStep, GatewayStep, StatusStep, WorkloadOf,
         HMetaTemplate, AdminServerTemplate, HStoreTemplate, HServerTemplate, ConsoleTemplate, HServerPanics, ConsolePanics,
         ReachesLoneDash, Interfere;
    var spec := s.copy.spec;
    var n := ShardsSeen(e, Call(e, s));
    PanicsExactly(spec, n);
    NeverCrashes(e, s);
    StatusNeverCrashes(e, s);
    match STEPS[i]
    case Services => ServicesCrash(e, s);
    case AddHMeta => WorkloadCrashes(e, s, KHMeta, HMetaTemplate(spec));
    case AddAdminServer => WorkloadCrashes(e, s, KAdminServer, AdminServerTemplate(spec));
    case AddHStore => WorkloadCrashes(e, Call(e, s), KHStore, HStoreTemplate(spec, n));
    case AddHServer => WorkloadCrashes(e, s, KHServer, HServerTemplate(spec));
    case AddConsole => if spec.console.Some? { WorkloadCrashes(e, s, KConsole, ConsoleTemplate(spec, spec.console.value)); }
    case _ =>
  }

  /** A pass that panics does so for a cause, and a pass that is done met none. */
  lemma {:induction false} RunFromCrashes(e: Surroundings, s: State, i: nat, delayed: bool)
    requires i <= |STEPS|
    ensures RunFrom(e, s, i, delayed).1 == Crashed ==> exists j: nat :: i <= j < |STEPS| && StepPanics(s.copy.spec, j)
    ensures RunFrom(e, s, i, delayed).1 == Done ==> forall j: nat :: i <= j < |STEPS| ==> !StepPanics(s.copy.spec, j)
    decreases |STEPS| - i
  {
    hide RunStep, StepPanics, LeavesSettled;
    if i < |STEPS| {
      var (t, v) := RunStep(e, s, STEPS[i]);
      StepCrashes(e, s, i);
      SpecKept(e, s, i);
      RunFromCrashes(e, t, i + 1, delayed);
      RunFromCrashes(e, t, i + 1, true);
      DelayedIsNotDone(e, t, i + 1);
    }
  }

  lemma SpecKept(e: Surroundings, s: State, i: nat)
    requires i < |STEPS|
    ensures RunStep(e, s, STEPS[i]).0.copy.spec == s.copy.spec
  {
    hide RunStep, OnlyKeys, SameOwned, Part;
    StepSettles(e, s, i);
  }

  /** A pass panics only on a resource that can make the program panic, and is never done on one. */
  lemma PassCrashes(e: Surroundings, s: State, view: Read)
    ensures Pass(e, s, view).1 == Crashed ==> CanPanic(SpecOf(e, s, view))
    ensures Pass(e, s, view).1 == Done ==> !CanPanic(SpecOf(e, s, view))
  {
    hide RunFrom, CanPanic, StepPanics;
    SomeStepPanics(SpecOf(e, s, view));
    RunFromCrashes(e, Begin(Call(e, s), view), 0, false);
  }
}
