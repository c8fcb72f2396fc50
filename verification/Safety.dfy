/** What every stored state of every run satisfies, and what no later state undoes. */
module Safety {
  import opened Text
  import opened Api
  import opened Templates
  import opened Cluster
  import opened Steps

  // ---------- assumptions about the surroundings ----------

  /** No read of the nshards ConfigMap fails. */
  ghost predicate ShardReadsSucceed(e: Surroundings) {
    forall i :: !e.tape(i).shardReadFails
  }

  /** Equal hashes under one key imply equal replica counts. */
  ghost predicate HashTellsReplicas(e: Surroundings) {
    forall kind: Kind, a: Template, b: Template ::
      e.hash(Workload(kind), WorkloadBody(a)) == e.hash(Workload(kind), WorkloadBody(b)) ==> a.replicas == b.replicas
  }

  // ---------- invariants of a stored world ----------

  /** The readiness order, and that only `True` is ever stored. */
  predicate Ordered(c: map<Condition, bool>) {
    && (forall x :: x in c ==> c[x])
    && (IsTrue(c, Ready) ==> IsTrue(c, HServerReady))
    && (IsTrue(c, HServerReady) ==> IsTrue(c, HStoreReady))
    && (IsTrue(c, HStoreReady) ==> IsTrue(c, HMetaReady))
  }

  /** The condition that must be stored before a workload may exist. */
  function GateOf(key: Key): Option<Condition> {
    match key
    case Workload(KAdminServer) => Some(HMetaReady)
    case Workload(KHStore) => Some(HMetaReady)
    case Workload(KHServer) => Some(HStoreReady)
    case Workload(KGateway) => Some(HServerReady)
    case Workload(KConsole) => Some(HServerReady)
    case _ => None
  }

  predicate GateOpen(c: map<Condition, bool>, key: Key) {
    GateOf(key).Some? ==> IsTrue(c, GateOf(key).value)
  }

  /** What the stored conditions mean: HMeta has told of at least one node and every one
      it told of is reachable, and the workload of every other condition is there. */
  predicate Meant(c: map<Condition, bool>, nodes: map<string, HMetaNode>, objects: map<Key, Object>) {
    && (IsTrue(c, HMetaReady) ==> nodes != map[] && forall id :: id in nodes ==> nodes[id].reachable)
    && (IsTrue(c, HStoreReady) ==> Workload(KHStore) in objects)
    && (IsTrue(c, HServerReady) ==> Workload(KHServer) in objects)
    && (IsTrue(c, GatewayReady) ==> Workload(KGateway) in objects)
    && (IsTrue(c, ConsoleReady) ==> Workload(KConsole) in objects)
  }

  predicate Gated(w: World) { forall k :: k in w.objects ==> GateOpen(w.conditions, k) }

  function One(b: bool): nat { if b then 1 else 0 }

  /** Conservation of bootstraps and inits: those that succeeded are the one recorded
      as ready, those whose record was lost, and at most one still to be recorded. */
  predicate Counted(c: map<Condition, bool>, w: World) {
    var stored, server := One(IsTrue(c, HStoreReady)), One(IsTrue(c, HServerReady));
    && stored + w.lostBootstraps <= |w.bootstraps| <= w.lostBootstraps + 1
    && server + w.lostInits <= w.inits <= w.lostInits + 1
  }

  /** The same with nothing still to be recorded, as it is at every pass's end. */
  predicate Even(w: World) {
    && |w.bootstraps| == One(IsTrue(w.conditions, HStoreReady)) + w.lostBootstraps
    && w.inits == One(IsTrue(w.conditions, HServerReady)) + w.lostInits
  }

  /** The replication sent: the setting if it is given and not more than the desired
      replicas, and otherwise the greatest number that is at most 3 and at most those. */
  predicate RightReplication(b: Bootstrap) {
    if b.across.Some? && b.across.value <= b.desired then b.replication == b.across.value
    else b.replication <= 3 && b.replication <= b.desired && (b.replication == 3 || b.replication == b.desired)
  }

  ghost predicate Bounded(e: Surroundings, w: World) {
    && (forall b :: b in w.bootstraps ==> RightReplication(b))
    && (HashTellsReplicas(e) ==> forall b :: b in w.bootstraps ==> b.replication <= b.ready)
  }

  /** Every object carries the hash of its own contents. */
  ghost predicate Hashed(e: Surroundings, w: World) {
    forall k :: k in w.objects ==>
      w.objects[k].hash == e.hash(k, w.objects[k].body) && (k.Workload? <==> w.objects[k].body.WorkloadBody?)
  }

  /** The template is what the operator builds for some resource with `n` shards. */
  ghost predicate BuiltFor(t: Template, n: int32) {
    exists spec: Spec :: HStoreTemplate(spec, n) == Ok(t)
  }

  ghost predicate ShardsRecorded(w: World) {
    w.nshards.Some? ==> exists n: int32 :: w.nshards.value == Itoa(n)
  }

  /** The live HStore workload was built for the recorded shard count. */
  ghost predicate Sharded(e: Surroundings, w: World) {
    && ShardsRecorded(w)
    && (ShardReadsSucceed(e) && Workload(KHStore) in w.objects ==>
          w.nshards.Some? && HasShards(w.objects[Workload(KHStore)].body, w.nshards.value))
  }

  ghost predicate HasShards(body: Body, recorded: string) {
    body.WorkloadBody? && forall otherwise :: BuiltFor(body.template, ShardCount(recorded, otherwise))
  }

  ghost predicate Inv(e: Surroundings, w: World) {
    Ordered(w.conditions) && Meant(w.conditions, w.nodes, w.objects) && Gated(w) && Counted(w.conditions, w) && Bounded(e, w) && Hashed(e, w) && Sharded(e, w)
  }

  /** What later stored worlds keep of earlier ones. */
  ghost predicate Keeps(w: World, v: World) {
    && (forall c :: IsTrue(w.conditions, c) ==> IsTrue(v.conditions, c))
    && w.objects.Keys <= v.objects.Keys
    && w.version <= v.version
    && (w.nshards.Some? ==> v.nshards == w.nshards)
    && (w.logDevice.Some? ==> v.logDevice == w.logDevice)
    && w.bootstraps <= v.bootstraps
    && (IsTrue(w.conditions, HStoreReady) ==> v.bootstraps == w.bootstraps)
    && w.inits <= v.inits
    && (IsTrue(w.conditions, HServerReady) ==> v.inits == w.inits)
  }

  lemma KeepsTransitive(a: World, b: World, c: World)
    requires Keeps(a, b) && Keeps(b, c)
    ensures Keeps(a, c)
  {
  }

  /** A run so far: every stored world is good and keeps what came before it. */
  ghost predicate Good(e: Surroundings, s: State) {
    && |s.log| > 0 && s.log[|s.log| - 1] == s.w
    && (forall i :: 0 <= i < |s.log| ==> Inv(e, s.log[i]))
    && (forall i, j :: 0 <= i < j < |s.log| ==> Keeps(s.log[i], s.log[j]))
  }

  lemma Extend(e: Surroundings, s: State, t: State)
    requires Good(e, s) && t.log == s.log + [t.w] && Inv(e, t.w) && Keeps(s.w, t.w)
    ensures Good(e, t)
  {
    forall i | 0 <= i < |s.log| ensures Keeps(t.log[i], t.w) {
      assert t.log[i] == s.log[i];
      if i < |s.log| - 1 {
        assert Keeps(s.log[i], s.log[|s.log| - 1]);
        KeepsTransitive(s.log[i], s.w, t.w);
      }
    }
    forall i, j | 0 <= i < j < |t.log| ensures Keeps(t.log[i], t.log[j]) {
      if j < |s.log| { assert t.log[i] == s.log[i] && t.log[j] == s.log[j]; }
    }
  }

  // ---------- calls and writes ----------

  /** Nothing changed but the resource's spec and version and ready counts. */
  ghost predicate Quiet(w: World, v: World) {
    && v == w.(spec := v.spec, version := v.version, objects := v.objects)
    && v.version >= w.version && (v.version == w.version ==> v.spec == w.spec)
    && v.objects.Keys == w.objects.Keys
    && forall k :: k in w.objects ==> v.objects[k] == w.objects[k].(ready := v.objects[k].ready)
  }

  lemma QuietKeeps(e: Surroundings, w: World, v: World)
    requires Inv(e, w) && Quiet(w, v)
    ensures Inv(e, v) && Keeps(w, v)
  {
    forall k | k in v.objects
      ensures GateOpen(v.conditions, k)
      ensures v.objects[k].hash == e.hash(k, v.objects[k].body) && (k.Workload? <==> v.objects[k].body.WorkloadBody?)
    {
      assert k in w.objects;
    }
  }

  /** The copy is as it was, the stored status too, and what was counted stays counted. */
  ghost predicate Carried(s: State, t: State) {
    && t.copy == s.copy && t.clock >= s.clock
    && t.w.conditions == s.w.conditions && t.w.nodes == s.w.nodes && s.w.objects.Keys <= t.w.objects.Keys
    && t.w.version >= s.w.version && (t.w.version == s.w.version ==> t.w.spec == s.w.spec)
    && t.w.bootstraps == s.w.bootstraps && t.w.lostBootstraps == s.w.lostBootstraps
    && t.w.inits == s.w.inits && t.w.lostInits == s.w.lostInits
    && (s.w.nshards.Some? ==> t.w.nshards == s.w.nshards)
    && s.log <= t.log
  }

  lemma CallKeeps(e: Surroundings, s: State)
    requires Good(e, s)
    ensures Good(e, Call(e, s)) && Carried(s, Call(e, s)) && Quiet(s.w, Call(e, s).w)
  {
    assert Inv(e, s.log[|s.log| - 1]);
    QuietKeeps(e, s.w, Call(e, s).w);
    Extend(e, s, Call(e, s));
  }

  lemma CarriedTransitive(a: State, b: State, c: State)
    requires Carried(a, b) && Carried(b, c)
    ensures Carried(a, c)
  {
  }

  /** The operator may write this object now. */
  ghost predicate MayWrite(e: Surroundings, w: World, key: Key, body: Body) {
    && GateOpen(w.conditions, key)
    && (key.Workload? <==> body.WorkloadBody?)
    && (key == Workload(KHStore) && ShardReadsSucceed(e) ==> w.nshards.Some? && HasShards(body, w.nshards.value))
  }

  lemma WrittenKeeps(e: Surroundings, w: World, key: Key, body: Body)
    requires Inv(e, w) && MayWrite(e, w, key, body)
    ensures Inv(e, Written(w, key, e.hash(key, body), body)) && Keeps(w, Written(w, key, e.hash(key, body), body))
  {
  }

  lemma StoreKeeps(e: Surroundings, s: State, key: Key, body: Body)
    requires Good(e, s) && MayWrite(e, s.w, key, body)
    ensures var t := Store(s, Written(s.w, key, e.hash(key, body), body));
            Good(e, t) && Carried(s, t)
  {
    assert Inv(e, s.log[|s.log| - 1]);
    WrittenKeeps(e, s.w, key, body);
    Extend(e, s, Store(s, Written(s.w, key, e.hash(key, body), body)));
  }

  lemma MayWriteStill(e: Surroundings, s: State, t: State, key: Key, body: Body)
    requires Carried(s, t) && MayWrite(e, s.w, key, body)
    ensures MayWrite(e, t.w, key, body)
  {
  }

  lemma EnsureKeeps(e: Surroundings, s: State, key: Key, body: Body)
    requires Good(e, s) && MayWrite(e, s.w, key, body)
    ensures var (t, v) := Ensure(e, s, key, body);
            && Good(e, t) && Carried(s, t)
            && (v.Go? || (v.Stop? && v.requeue.error.Some? && !v.requeue.delayed))
  {
    hide Interfere, Inv, Keeps, MayWrite;
    var s1 := Call(e, s);
    CallKeeps(e, s);
    if FaultOf(e, s1) == NoFault && !(key in s1.w.objects && s1.w.objects[key].hash == e.hash(key, body)) {
      var s2 := Call(e, s1);
      CallKeeps(e, s1);
      CarriedTransitive(s, s1, s2);
      if FaultOf(e, s2) == NoFault {
        MayWriteStill(e, s, s2, key, body);
        StoreKeeps(e, s2, key, body);
      }
    }
  }
}
