/** The main results about all runs of the reconcile pipeline: any surroundings,
    any faults and interference, any stale copies, any number of passes. */
module RunTheorems {
  import opened Text
  import opened Flags
  import opened Arguments
  import opened Api
  import opened Templates
  import opened Cluster
  import opened Steps
  import opened Safety
  import opened Runs
  import opened Panics
  import opened Settling

  /** Every world stored during `n` passes over a new resource. */
  ghost function History(e: Surroundings, spec: Spec, views: nat -> Read, n: nat): seq<World> {
    Passes(e, Fresh(spec), views, n).log
  }

  /** Readiness order: in every stored world Ready implies HServerReady implies
      HStoreReady implies HMetaReady, and no workload is there before its gate. */
  lemma ReadinessOrder(e: Surroundings, spec: Spec, views: nat -> Read, n: nat, i: nat)
    requires i < |History(e, spec, views, n)|
    ensures var w := History(e, spec, views, n)[i];
            && (IsTrue(w.conditions, Ready) ==> IsTrue(w.conditions, HServerReady))
            && (IsTrue(w.conditions, HServerReady) ==> IsTrue(w.conditions, HStoreReady))
            && (IsTrue(w.conditions, HStoreReady) ==> IsTrue(w.conditions, HMetaReady))
            && (Workload(KHStore) in w.objects || Workload(KAdminServer) in w.objects ==> IsTrue(w.conditions, HMetaReady))
            && (Workload(KHServer) in w.objects ==> IsTrue(w.conditions, HStoreReady))
            && (Workload(KGateway) in w.objects || Workload(KConsole) in w.objects ==> IsTrue(w.conditions, HServerReady))
  {
    hide Passes, Bounded, Hashed, Sharded, Counted;
    RunKeeps(e, spec, views, n);
    var w := History(e, spec, views, n)[i];
    assert Inv(e, w);
    assert forall k :: k in w.objects ==> GateOpen(w.conditions, k);
  }

  /** No stored condition ever goes from True back to False, or is ever stored as False. */
  lemma ConditionsLatch(e: Surroundings, spec: Spec, views: nat -> Read, n: nat, i: nat, j: nat, c: Condition)
    requires i <= j < |History(e, spec, views, n)|
    ensures var log := History(e, spec, views, n);
            && (IsTrue(log[i].conditions, c) ==> IsTrue(log[j].conditions, c))
            && (c in log[j].conditions ==> log[j].conditions[c])
  {
    hide Passes, Bounded, Hashed, Sharded, Counted, Gated;
    RunKeeps(e, spec, views, n);
    var log := History(e, spec, views, n);
    assert Inv(e, log[j]);
    assert i < j ==> Keeps(log[i], log[j]);
  }

  /** Conservation of bootstraps: at the end of every pass the successful
      bootstraps are the recorded one and those whose record was lost, and the same for inits. */
  lemma BootstrapsConserved(e: Surroundings, spec: Spec, views: nat -> Read, n: nat)
    ensures var w := Passes(e, Fresh(spec), views, n).w;
            && |w.bootstraps| == One(IsTrue(w.conditions, HStoreReady)) + w.lostBootstraps
            && w.inits == One(IsTrue(w.conditions, HServerReady)) + w.lostInits
  {
    hide Passes, Good;
    RunKeeps(e, spec, views, n);
  }

  /** The freshness fence at work: once HStoreReady is stored there is never
      another bootstrap, and once HServerReady is stored never another init. */
  lemma NoBootstrapOnceReady(e: Surroundings, spec: Spec, views: nat -> Read, n: nat, i: nat, j: nat)
    requires i <= j < |History(e, spec, views, n)|
    ensures var log := History(e, spec, views, n);
            && (IsTrue(log[i].conditions, HStoreReady) ==> log[j].bootstraps == log[i].bootstraps)
            && (IsTrue(log[i].conditions, HServerReady) ==> log[j].inits == log[i].inits)
  {
    hide Passes, Inv;
    RunKeeps(e, spec, views, n);
    var log := History(e, spec, views, n);
    assert i < j ==> Keeps(log[i], log[j]);
  }

  /** No stalled pass: a pass over an existing resource ends in an error, or asks to be
      run again after a positive delay, or is done with Ready stored; it panics only
      on a resource something of which cannot be built, and is never done on one. */
  lemma NoStalledPass(e: Surroundings, spec: Spec, views: nat -> Read, n: nat, view: Read)
    requires !view.Missing?
    ensures var s := Passes(e, Fresh(spec), views, n);
            var (t, o) := Pass(e, s, view);
            || o.Failed?
            || (o.RequeueAfter? && o.seconds > 0)
            || (o.Done? && IsTrue(t.w.conditions, Ready) && !CanPanic(SpecOf(e, s, view)))
            || (o.Crashed? && CanPanic(SpecOf(e, s, view)))
  {
    hide Passes, Good, Pass, CanPanic, SpecOf;
    RunKeeps(e, spec, views, n);
    var s := Passes(e, Fresh(spec), views, n);
    PassKeeps(e, s, view);
    PassCrashes(e, s, view);
    match Pass(e, s, view).1
    case Failed(_) =>
    case RequeueAfter(_) =>
    case Done =>
    case Crashed =>
    case Absent =>
  }

  /** In every pass of every run: the gateway is never made to wait, the last step
      never finds the resource not ready, and the delayed exit is never taken; a
      pass that no step ends is done. */
  lemma DeadBranches(e: Surroundings, spec: Spec, views: nat -> Read, n: nat, view: Read)
    requires view.Current? || view.Stale?
    ensures var s := Begin(Call(e, Passes(e, Fresh(spec), views, n)), view);
            match Ending(e, s, 0)
            case None => Pass(e, Passes(e, Fresh(spec), views, n), view).1 == Done
            case Some((step, v)) =>
              && v != Waiting("wait for HServer nodes to be ready", 10)
              && (v.Stop? ==> !v.requeue.delayed && Pass(e, Passes(e, Fresh(spec), views, n), view).1 == Processed(v.requeue))
  {
    hide Passes, Good, RunFrom, Ending;
    RunKeeps(e, spec, views, n);
    BeginStage(e, Passes(e, Fresh(spec), views, n), view);
    EndingIsOutcome(e, Begin(Call(e, Passes(e, Fresh(spec), views, n)), view), 0);
  }

  /** The shard record is frozen: once recorded it never changes, however the resource is edited
      and whatever fails. While its reads succeed, every later live HStore workload has exactly
      that many distinct shard mounts and was given `--num-shards` with it unless its arguments
      named it. The exact condition on failing reads is `Shards.CarriedExactly`. */
  lemma ShardCountFrozen(e: Surroundings, spec: Spec, views: nat -> Read, n: nat, i: nat, j: nat) returns (shards: int32)
    requires i <= j < |History(e, spec, views, n)| && History(e, spec, views, n)[i].nshards.Some?
    ensures var log := History(e, spec, views, n);
            && log[i].nshards == log[j].nshards == Some(Itoa(shards))
            && (ShardReadsSucceed(e) && Workload(KHStore) in log[j].objects ==>
                  log[j].objects[Workload(KHStore)].body.WorkloadBody?
                  && CarriesShards(log[j].objects[Workload(KHStore)].body.template, shards))
  {
    hide Passes, Bounded, Hashed, Counted, Gated, Ordered, HStoreTemplate;
    RunKeeps(e, spec, views, n);
    var log := History(e, spec, views, n);
    assert i < j ==> Keeps(log[i], log[j]);
    assert Inv(e, log[j]);
    RecordedCount(log[j], 0);
    shards :| log[j].nshards.value == Itoa(shards) && forall o: int32 :: ShardCount(log[j].nshards.value, o) == shards;
    if ShardReadsSucceed(e) && Workload(KHStore) in log[j].objects {
      var t := log[j].objects[Workload(KHStore)].body.template;
      assert BuiltFor(t, ShardCount(log[j].nshards.value, 0));
      BuiltForCarries(t, shards);
    }
  }

  /** The template has one distinct mount per shard and, for the arguments it
      was built from, passes the count on. */
  ghost predicate CarriesShards(t: Template, n: int32) {
    && t.mounts == ShardMounts(n)
    && (n >= 0 ==> |t.mounts| == n && forall i, j :: 0 <= i < j < |t.mounts| ==> t.mounts[i].mountPath != t.mounts[j].mountPath)
    && exists built: Spec ::
         && HStoreTemplate(built, n) == Ok(t)
         && (n >= 0 && Parse(built.hStore.container.args).Accepted() && "num-shards" !in Names(Parse(built.hStore.container.args).flags)
             ==> PassesOn(t.args, "--num-shards", Itoa(n)))
  }

  lemma BuiltForCarries(t: Template, n: int32)
    requires BuiltFor(t, n)
    ensures CarriesShards(t, n)
  {
    hide HStoreTemplate, PassesOn, Run;
    var built: Spec :| HStoreTemplate(built, n) == Ok(t);
    ShardsInTemplate(built, n);
    if n >= 0 { ShardMountsDistinct(n); }
  }

  /** What the stored conditions mean, in every world of every run: under HMetaReady the
      stored nodes are not empty and every one of them is reachable; under each other
      condition its workload is there, and Ready needs all but the optional ones. */
  lemma ConditionsMean(e: Surroundings, spec: Spec, views: nat -> Read, n: nat, i: nat)
    requires i < |History(e, spec, views, n)|
    ensures var w := History(e, spec, views, n)[i];
            && (IsTrue(w.conditions, HMetaReady) ==> w.nodes != map[] && forall id :: id in w.nodes ==> w.nodes[id].reachable)
            && (IsTrue(w.conditions, HStoreReady) ==> Workload(KHStore) in w.objects)
            && (IsTrue(w.conditions, HServerReady) ==> Workload(KHServer) in w.objects)
            && (IsTrue(w.conditions, GatewayReady) ==> Workload(KGateway) in w.objects)
            && (IsTrue(w.conditions, ConsoleReady) ==> Workload(KConsole) in w.objects)
            && (IsTrue(w.conditions, Ready) ==> w.nodes != map[] && Workload(KHStore) in w.objects && Workload(KHServer) in w.objects)
  {
    hide Passes, Bounded, Hashed, Sharded, Counted, Gated;
    RunKeeps(e, spec, views, n);
    assert Inv(e, History(e, spec, views, n)[i]);
  }

  /** The HMeta step goes on only if the nodes HMeta told of, at least one, were all reachable
      and are what is now stored; and, without an external HMeta, only if the live workload had
      at least one ready replica and as many as it asks for. */
  lemma HMetaStepGoesOn(e: Surroundings, s: State)
    requires HMetaStatusStep(e, s).1.Go?
    ensures var t := HMetaStatusStep(e, s).0;
            && t.w.nodes != map[] && (forall id :: id in t.w.nodes ==> t.w.nodes[id].reachable)
            && t.w.nodes == e.tape(s.clock + if s.copy.spec.externalHMeta.Some? then 0 else 1).nodes
            && IsTrue(t.w.conditions, HMetaReady)
    ensures s.copy.spec.externalHMeta.None? ==>
              var w := Call(e, s).w;
              && Workload(KHMeta) in w.objects && w.objects[Workload(KHMeta)].body.WorkloadBody?
              && w.objects[Workload(KHMeta)].ready >= 1
              && w.objects[Workload(KHMeta)].ready >= w.objects[Workload(KHMeta)].body.template.replicas
  {
    hide Interfere;
    var s1 := if s.copy.spec.externalHMeta.Some? then s else Call(e, s);
    assert AllReachable(TickOf(e, Call(e, s1)).nodes);
    assert TickOf(e, Call(e, s1)).nodes != map[];
  }

  /** With one node down the step neither goes on nor stores anything, and asks to be run again in a second. */
  lemma NodeDownWaits(e: Surroundings, s: State, id: string)
    requires s.copy.spec.externalHMeta.Some? && e.tape(s.clock).fault == NoFault
    requires id in e.tape(s.clock).nodes && !e.tape(s.clock).nodes[id].reachable
    ensures HMetaStatusStep(e, s) == (Call(e, s), Stop(Requeue(1, None, "wait for HMeta cluster to be ready", false)))
  {
    hide Interfere;
  }

  /** Replication sent: every bootstrap ever sent asks for the setting, if it is given and not
      more than the desired replicas, and otherwise for the least of 3 and those. */
  lemma ReplicationSent(e: Surroundings, spec: Spec, views: nat -> Read, n: nat, b: Bootstrap)
    requires b in Passes(e, Fresh(spec), views, n).w.bootstraps
    ensures b.across.Some? && b.across.value <= b.desired ==> b.replication == b.across.value
    ensures !(b.across.Some? && b.across.value <= b.desired) ==> b.replication == if b.desired <= 3 then b.desired else 3
  {
    hide Passes, Good, Hashed, Sharded, Counted, Gated, Ordered, Meant;
    RunKeeps(e, spec, views, n);
    StoredIsGood(e, Passes(e, Fresh(spec), views, n));
  }

  /** Replication bound: every bootstrap ever sent asks for at most the desired replicas and,
      if equal hashes imply equal replica counts, at most the ready ones; it asks for at
      least one exactly when replicas are desired and the setting is absent or positive. */
  lemma ReplicationBounded(e: Surroundings, spec: Spec, views: nat -> Read, n: nat, b: Bootstrap)
    requires b in Passes(e, Fresh(spec), views, n).w.bootstraps
    ensures b.replication <= b.desired
    ensures HashTellsReplicas(e) ==> b.replication <= b.ready
    ensures b.replication >= 1 <==> b.desired >= 1 && (b.across.Some? ==> b.across.value >= 1)
  {
    hide Passes, Good, Hashed, Sharded, Counted, Gated, Ordered;
    RunKeeps(e, spec, views, n);
    StoredIsGood(e, Passes(e, Fresh(spec), views, n));
  }
}
