/** What a pass answers, and why: the outcome of every stop written out, with the faults and
    the waits that cause it. */
module Outcomes {
  import opened Text
  import opened Flags
  import opened Agreement
  import opened Api
  import opened Templates
  import opened Cluster
  import opened Steps
  import opened Settling
  import opened Safety
  import opened Runs

  // ---------- requeues ----------

  /** A conflict is no error: the pass is run again after the delay, or after a second if there
      is none. Any other error is the answer. Without an error the delay is. */
  lemma RequeueAnswers(r: Requeue)
    ensures r.error == Some(ConflictError) && r.delay == 0 ==> Processed(r) == RequeueAfter(1)
    ensures r.error == Some(ConflictError) && r.delay > 0 ==> Processed(r) == RequeueAfter(r.delay)
    ensures r.error == Some(OtherError) ==> Processed(r) == Failed(OtherError)
    ensures r.error == None ==> Processed(r) == RequeueAfter(r.delay)
  {
    if r.error.Some? {
      match r.error.value
      case ConflictError =>
      case OtherError =>
    }
  }

  /** No pass, from any state and any copy, answers with a conflict. */
  lemma {:induction false} RunFromHidesConflicts(e: Surroundings, s: State, i: nat, delayed: bool)
    requires i <= |STEPS|
    ensures RunFrom(e, s, i, delayed).1 != Failed(ConflictError)
    decreases |STEPS| - i
  {
    hide RunStep, Processed;
    if i < |STEPS| {
      var (t, v) := RunStep(e, s, STEPS[i]);
      RunFromHidesConflicts(e, t, i + 1, delayed);
      RunFromHidesConflicts(e, t, i + 1, true);
      if v.Stop? { NeverConflict(v.requeue); }
    }
  }

  lemma NeverConflict(r: Requeue)
    ensures Processed(r) != Failed(ConflictError)
  {
  }

  lemma PassHidesConflicts(e: Surroundings, s: State, view: Read)
    ensures Pass(e, s, view).1 != Failed(ConflictError)
    ensures view.Missing? <==> Pass(e, s, view).1 == Absent
    ensures view.ReadError? ==> Pass(e, s, view).1 == Failed(OtherError)
  {
    hide RunFrom;
    RunFromHidesConflicts(e, Begin(Call(e, s), view), 0, false);
    RunFromIsPresent(e, Begin(Call(e, s), view), 0, false);
  }

  lemma {:induction false} RunFromIsPresent(e: Surroundings, s: State, i: nat, delayed: bool)
    requires i <= |STEPS|
    ensures RunFrom(e, s, i, delayed).1 != Absent
    decreases |STEPS| - i
  {
    hide RunStep;
    if i < |STEPS| {
      RunFromIsPresent(e, RunStep(e, s, STEPS[i]).0, i + 1, delayed);
      RunFromIsPresent(e, RunStep(e, s, STEPS[i]).0, i + 1, true);
    }
  }

  /** In every pass of every run: the step that ends it decides the answer. */
  lemma EndingAnswers(e: Surroundings, spec: Spec, views: nat -> Read, n: nat, view: Read)
    requires view.Current? || view.Stale?
    ensures var s := Passes(e, Fresh(spec), views, n);
            var o := Pass(e, s, view).1;
            match Ending(e, Begin(Call(e, s), view), 0)
            case None => o == Done
            case Some((_, Crash)) => o == Crashed
            case Some((_, Stop(r))) =>
              && !r.delayed
              && (r.error == Some(ConflictError) && r.delay == 0 ==> o == RequeueAfter(1))
              && (r.error == Some(OtherError) ==> o == Failed(OtherError))
              && (r.error == None ==> o == RequeueAfter(r.delay) && r.delay > 0)
            case _ => false
  {
    hide Passes, Good, RunFrom, Ending, Processed, Interfere;
    RunKeeps(e, spec, views, n);
    var s := Begin(Call(e, Passes(e, Fresh(spec), views, n)), view);
    BeginStage(e, Passes(e, Fresh(spec), views, n), view);
    EndingIsOutcome(e, s, 0);
    if Ending(e, s, 0).Some? && Ending(e, s, 0).value.1.Stop? { RequeueAnswers(Ending(e, s, 0).value.1.requeue); }
    EndingStops(e, s, 0);
  }

  lemma {:induction false} EndingStops(e: Surroundings, s: State, i: nat)
    requires i <= |STEPS|
    ensures Ending(e, s, i).Some? ==> !Ending(e, s, i).value.1.Go?
    decreases |STEPS| - i
  {
    hide RunStep;
    if i < |STEPS| { EndingStops(e, RunStep(e, s, STEPS[i]).0, i + 1); }
  }

  // ---------- where errors come from ----------

  /** The error a fault of a call turns into: a conflict into a conflict, anything else into another error. */
  lemma FaultAnswers(f: Fault)
    ensures f == Conflict ==> Failing(ErrorOf(f)) == Stop(Requeue(0, Some(ConflictError), "", false))
    ensures f == Other ==> Failing(ErrorOf(f)) == Stop(Requeue(0, Some(OtherError), "", false))
  {
  }

  /** A status write: it fails with a conflict when the call meets one, or meets no fault but the
      copy is old; with another error when the call meets that; and stores the copy's status otherwise. */
  lemma StatusWriteExactly(e: Surroundings, s: State)
    ensures var (t, err) := StatusWrite(e, s);
            var fault := e.tape(s.clock).fault;
            && (err == Some(ConflictError) <==> fault == Conflict || (fault == NoFault && s.copy.version != Call(e, s).w.version))
            && (err == Some(OtherError) <==> fault == Other)
            && (err.Some? ==> t == Call(e, s))
            && (err.None? ==>
                  && t.w == Call(e, s).w.(conditions := s.copy.conditions, nodes := s.copy.nodes, version := t.w.version)
                  && t.w.version == Call(e, s).w.version + 1
                  && t.copy == s.copy.(version := t.w.version))
  {
    hide Interfere;
    match e.tape(s.clock).fault
    case NoFault =>
    case Conflict =>
    case Other =>
  }

  /** The freshness fence turns an old copy away: nothing is stored, and the pass is run again after a second. */
  lemma OldCopyTurnedAway(e: Surroundings, s: State)
    requires s.copy.version < s.w.version && s.copy.spec.externalHMeta.Some?
    requires e.tape(s.clock).fault == NoFault && e.tape(s.clock + 1).fault == NoFault && AllReachable(e.tape(s.clock).nodes)
    ensures var (t, v) := HMetaStatusStep(e, s);
            && v == Stop(Requeue(0, Some(ConflictError), "", false)) && Processed(v.requeue) == RequeueAfter(1)
            && t.w.conditions == s.w.conditions && t.w.nodes == s.w.nodes
  {
    hide StatusWrite, AllReachable;
    var s1 := Call(e, s);
    StatusWriteExactly(e, WithCondition(s1.(copy := s1.copy.(nodes := TickOf(e, s1).nodes)), HMetaReady, true));
  }

  /** Get, compare and write: it stops exactly at the first call that meets a fault, with that fault's error. */
  lemma EnsureStops(e: Surroundings, s: State, key: Key, body: Body)
    ensures var v := Ensure(e, s, key, body).1;
            var first, second := e.tape(s.clock).fault, e.tape(s.clock + 1).fault;
            var writes := first == NoFault && !UpToDate(e, s.w, key, body);
            && (v == Stop(Requeue(0, Some(ConflictError), "", false)) <==> first == Conflict || (writes && second == Conflict))
            && (v == Stop(Requeue(0, Some(OtherError), "", false)) <==> first == Other || (writes && second == Other))
            && (v == Go <==> first == NoFault && (writes ==> second == NoFault))
  {
    hide Interfere;
    CallOwns(e, s);
    FaultAnswers(e.tape(s.clock).fault);
    FaultAnswers(e.tape(s.clock + 1).fault);
  }

  /** Arguments of an internal HMeta that the parser rejects are an error of the Services step, before anything is built. */
  lemma RejectedStopsServices(e: Surroundings, s: State)
    requires s.copy.spec.externalHMeta.None? && Parse(s.copy.spec.hMeta.container.args).status == Rejected
    ensures ServicesStep(e, s) == (s, Stop(Requeue(0, Some(OtherError), "", false)))
  {
    hide Run, ServicePortsOf, Ensure;
  }

  /** So no pass whose copy shows such a resource is done, and none creates a Service or a workload. */
  lemma RejectedBuildsNothing(e: Surroundings, s: State, view: Read)
    requires var spec := Begin(Call(e, s), view).copy.spec;
             spec.externalHMeta.None? && Parse(spec.hMeta.container.args).status == Rejected
    ensures var (t, o) := Pass(e, s, view);
            o != Done && t.w.objects.Keys == s.w.objects.Keys
  {
    hide Run, RunFrom, ServicesStep, Interfere, LogDeviceStep;
    var begun := Begin(Call(e, s), view);
    var (t, v) := LogDeviceStep(e, begun);
    CallBootstraps(e, s);
    ConfigLeavesObjects(e, begun);
    RejectedStopsServices(e, t);
    RunFromTwo(e, begun);
  }

  lemma ConfigLeavesObjects(e: Surroundings, s: State)
    ensures var (t, v) := LogDeviceStep(e, s);
            && t.copy == s.copy && t.w.objects.Keys == s.w.objects.Keys
            && (v.Stop? ==> !v.requeue.delayed)
  {
    hide ConfigFor, ShardConfigPart, Interfere;
    var s1 := Call(e, s);
    var s2 := Call(e, s1);
    CallBootstraps(e, s);
    CallBootstraps(e, s1);
    CountLeavesObjects(e, s1);
    CountLeavesObjects(e, Store(s2, s2.w.(logDevice := Some(ConfigFor(s2.copy.spec)), writes := s2.w.writes + 1)));
  }

  lemma CountLeavesObjects(e: Surroundings, s: State)
    ensures var (t, v) := ShardConfigPart(e, s);
            && t.copy == s.copy && t.w.objects.Keys == s.w.objects.Keys
            && (v.Stop? ==> !v.requeue.delayed)
  {
    hide MinNShards, Itoa, Interfere;
    CallBootstraps(e, s);
    CallBootstraps(e, Call(e, s));
  }

  /** The first two steps of a pass. */
  lemma RunFromTwo(e: Surroundings, s: State)
    ensures var (t, v) := LogDeviceStep(e, s);
            && (!v.Go? && (v.Stop? ==> !v.requeue.delayed) ==> RunFrom(e, s, 0, false).0 == t && RunFrom(e, s, 0, false).1 != Done)
            && (v.Go? ==>
                  var (u, x) := ServicesStep(e, t);
                  x.Stop? && !x.requeue.delayed ==> RunFrom(e, s, 0, false).0 == u && RunFrom(e, s, 0, false).1 != Done)
  {
    hide LogDeviceStep, ServicesStep, HMetaStep;
    assert RunStep(e, s, STEPS[0]) == LogDeviceStep(e, s);
  }

  /** A write stores what is wanted under its own hash, keeps the ready replicas of what was there, and touches nothing else. */
  lemma EnsureStores(e: Surroundings, s: State, key: Key, body: Body)
    ensures var t, w := Ensure(e, s, key, body).0.w, Call(e, Call(e, s)).w;
            t.writes != s.w.writes ==>
              t.objects == w.objects[key := Object(e.hash(key, body), body, if key in w.objects then w.objects[key].ready else 0)]
  {
  }

  // ---------- waits ----------

  /** Without an error the three waiting steps ask for one second, or for five after an admin call that failed. */
  lemma Waits(e: Surroundings, s: State)
    ensures var v := HMetaStatusStep(e, s).1;
            v.Stop? && v.requeue.error.None? ==> v.requeue.delay == 1
    ensures var v := BootstrapHStoreStep(e, s).1;
            v.Stop? && v.requeue.error.None? ==> v.requeue.delay == if AdminCallFails(e, s, KHStore) then 5 else 1
    ensures var v := BootstrapHServerStep(e, s).1;
            v.Stop? && v.requeue.error.None? ==> v.requeue.delay == if AdminCallFails(e, s, KHServer) then 5 else 1
  {
    hide Interfere, StatusWrite, MetadataReplication, AllReachable;
  }

  /** In the waiting steps an error is only ever the status write's: every failed read or admin call before it is a wait. */
  lemma HMetaErrors(e: Surroundings, s: State)
    ensures var (t, v) := HMetaStatusStep(e, s);
            var c := s.clock + if s.copy.spec.externalHMeta.Some? then 0 else 1;
            v.Stop? && v.requeue.error.Some? ==>
              e.tape(c).fault == NoFault && t.clock == c + 2 && forall id :: id in e.tape(c).nodes ==> e.tape(c).nodes[id].reachable
  {
    hide Interfere, StatusWrite;
    var s1 := if s.copy.spec.externalHMeta.Some? then s else Call(e, s);
    var s2 := Call(e, s1);
    StatusWriteExactly(e, WithCondition(s2.(copy := s2.copy.(nodes := TickOf(e, s2).nodes)), HMetaReady, true));
  }

  lemma BootstrapErrors(e: Surroundings, s: State)
    ensures var (t, v) := BootstrapHStoreStep(e, s);
            v.Stop? && v.requeue.error.Some? ==>
              e.tape(s.clock).fault == NoFault && e.tape(s.clock + 1).fault == NoFault && t.clock == s.clock + 3
    ensures var (t, v) := BootstrapHServerStep(e, s);
            v.Stop? && v.requeue.error.Some? ==>
              e.tape(s.clock).fault == NoFault && e.tape(s.clock + 1).fault == NoFault && t.clock == s.clock + 3
  {
    hide BootstrapRecordPart, InitRecordPart, Interfere;
    var s2 := Call(e, Call(e, s));
    var ready := Running(e, Call(e, s), KHStore);
    if ready.Some? { BootstrapRecordClock(e, s2, ready.value); }
    InitRecordClock(e, s2);
  }

  lemma BootstrapRecordClock(e: Surroundings, s: State, ready: nat)
    ensures BootstrapRecordPart(e, s, ready).0.clock == s.clock + 1
  {
    hide Interfere, MetadataReplication;
  }

  lemma InitRecordClock(e: Surroundings, s: State)
    ensures InitRecordPart(e, s).0.clock == s.clock + 1
  {
    hide Interfere;
  }

  /** Before HServerReady the gateway step would only wait, ten seconds. */
  lemma GatewayWaits(e: Surroundings, s: State)
    requires s.copy.spec.gateway.Some? && !IsTrue(s.copy.conditions, HServerReady)
    ensures GatewayStep(e, s) == (s, Stop(Requeue(10, None, "wait for HServer nodes to be ready", false)))
  {
  }

  /** The workload runs, and the admin call that follows fails. */
  ghost predicate AdminCallFails(e: Surroundings, s: State, kind: Kind) {
    var w := Call(e, s).w;
    && e.tape(s.clock).fault == NoFault && Workload(kind) in w.objects && w.objects[Workload(kind)].body.WorkloadBody?
    && w.objects[Workload(kind)].ready >= 1
    && w.objects[Workload(kind)].ready >= w.objects[Workload(kind)].body.template.replicas
    && e.tape(s.clock + 1).fault != NoFault
  }

  /** A bootstrap is recorded with what the copy asks for and what the live workload showed; the copy then says HStoreReady. */
  lemma BootstrapOfResource(e: Surroundings, s: State)
    requires BootstrapHStoreStep(e, s).0.w.bootstraps != s.w.bootstraps
    ensures var (t, v) := BootstrapHStoreStep(e, s);
            var b := t.w.bootstraps[|t.w.bootstraps| - 1];
            && t.w.bootstraps == s.w.bootstraps + [b]
            && b.desired == s.copy.spec.hStore.replicas && b.across == s.copy.spec.metadataReplicateAcross
            && Workload(KHStore) in s.w.objects && b.ready == Call(e, s).w.objects[Workload(KHStore)].ready
            && !IsTrue(s.copy.conditions, HStoreReady) && IsTrue(t.copy.conditions, HStoreReady)
            && (v == Stop(Requeue(1, None, "", false)) <==> t.w.lostBootstraps == s.w.lostBootstraps)
  {
    hide Interfere, StatusWrite, MetadataReplication;
    var s1 := Call(e, s);
    var s2 := Call(e, s1);
    CallBootstraps(e, s);
    CallBootstraps(e, s1);
    var ready := Running(e, s1, KHStore);
    if ready.Some? {
      var spec := s.copy.spec;
      var b := Bootstrap(MetadataReplication(spec), spec.hStore.replicas, spec.metadataReplicateAcross, ready.value);
      var asked := WithCondition(Store(s2, s2.w.(bootstraps := s2.w.bootstraps + [b])), HStoreReady, true);
      StatusWriteExactly(e, asked);
      CallBootstraps(e, asked);
    }
  }

  lemma CallBootstraps(e: Surroundings, s: State)
    ensures var t := Call(e, s);
            && t.w.bootstraps == s.w.bootstraps && t.w.lostBootstraps == s.w.lostBootstraps && t.w.objects.Keys == s.w.objects.Keys
            && t.copy == s.copy && t.w.conditions == s.w.conditions
  {
  }

  // ---------- Ready ----------

  /** The last step stores Ready as true exactly when every condition the resource asks for is true. */
  lemma ReadyMeans(copy: Copy)
    ensures AllReady(copy) <==>
            forall c :: c in {HMetaReady, HStoreReady, HServerReady}
                             + (if copy.spec.console.Some? then {ConsoleReady} else {})
                             + (if copy.spec.gateway.Some? then {GatewayReady} else {})
                        ==> c in copy.conditions && copy.conditions[c]
  {
  }

  /** An optional component is asked for in every pass that wants it: the check goes on exactly when the
      read succeeds and the workload is there, and then sets its condition. */
  lemma ComponentChecked(e: Surroundings, s: State, kind: Kind, c: Condition)
    ensures ComponentPart(e, s, false, kind, c) == (s, Go)
    ensures var (t, v) := ComponentPart(e, s, true, kind, c);
            && t.clock == s.clock + 1
            && (v == Go <==> e.tape(s.clock).fault == NoFault && Workload(kind) in s.w.objects)
            && (v == Go ==> t.copy.conditions == s.copy.conditions[c := true])
            && (v != Go ==> t.copy == s.copy
                            && v == Stop(Requeue(0, Some(if e.tape(s.clock).fault == Conflict then ConflictError else OtherError), "", false)))
  {
  }

  /** The last step: after its status write it goes on exactly when everything is ready, and
      otherwise asks for another pass in the end. */
  lemma StatusGoesOn(e: Surroundings, s: State)
    ensures var (t, v) := StatusStep(e, s);
            var checked := ComponentsPart(e, s);
            var written := StatusWrite(e, WithCondition(checked.0, Ready, AllReady(checked.0.copy)));
            checked.1 == Go && written.1.None? ==>
              && t.w.conditions == checked.0.copy.conditions[Ready := AllReady(checked.0.copy)]
              && v == if AllReady(checked.0.copy) then Go else Stop(Requeue(0, None, "HStreamDB is not ready", true))
  {
    hide ComponentsPart, AllReady, Interfere;
    var checked := ComponentsPart(e, s).0;
    StatusWriteExactly(e, WithCondition(checked, Ready, AllReady(checked.copy)));
  }

  /** A wish for another pass in the end is answered after a second, once the rest of the pass is done. */
  lemma NotReadyAnswers(e: Surroundings, s: State)
    requires StatusStep(e, s).1 == Stop(Requeue(0, None, "HStreamDB is not ready", true))
    ensures RunFrom(e, s, 11, false) == (StatusStep(e, s).0, RequeueAfter(1))
  {
    hide StatusStep;
    assert RunStep(e, s, STEPS[11]) == StatusStep(e, s);
    assert RunFrom(e, StatusStep(e, s).0, 12, true) == (StatusStep(e, s).0, RequeueAfter(1));
  }
}
