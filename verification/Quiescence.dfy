/** Quiescence in its exact form. Two steps pass over a failed read: of the recorded shard
    count, and of the live HServer port. On a settled cluster those are the only steps that
    can write, and they write exactly when the read fails, what is built without it hashes
    differently, and the calls after it succeed. */
module Quiescence {
  import opened Text
  import opened Api
  import opened HServer
  import opened Templates
  import opened Cluster
  import opened Steps
  import opened Settling

  // ---------- one write ----------

  /** `createOrUpdate` writes now: both calls succeed and the hash differs. */
  ghost predicate WritesNow(e: Surroundings, s: State, key: Key, body: Body) {
    e.tape(s.clock).fault == NoFault && !UpToDate(e, s.w, key, body) && e.tape(s.clock + 1).fault == NoFault
  }

  lemma EnsureWritesExactly(e: Surroundings, s: State, key: Key, body: Body)
    ensures var t := Ensure(e, s, key, body).0;
            if WritesNow(e, s, key, body) then t.w.writes == s.w.writes + 1 else SameOwned(s.w, t.w)
  {
    hide Interfere;
    CallOwns(e, s);
    CallOwns(e, Call(e, s));
  }

  // ---------- HStore ----------

  ghost function HStoreBody(spec: Spec, n: int): Body {
    match HStoreTemplate(spec, n)
    case Ok(t) => WorkloadBody(t)
    case _ => ServiceBody([])
  }

  /** What the HStore step builds hashes like what it should build: the shard count is
      recorded, and it is read, or what the resource's own count gives hashes the same. */
  ghost predicate HStoreTold(e: Surroundings, s: State) {
    var spec := s.copy.spec;
    && s.w.nshards.Some?
    && (!e.tape(s.clock).shardReadFails
        || e.hash(Workload(KHStore), HStoreBody(spec, spec.nShards))
           == e.hash(Workload(KHStore), HStoreBody(spec, ShardCount(s.w.nshards.value, spec.nShards))))
  }

  ghost predicate HStoreRewrites(e: Surroundings, s: State) {
    !HStoreTold(e, s) && e.tape(s.clock + 1).fault == NoFault && e.tape(s.clock + 2).fault == NoFault
  }

  lemma OkForEveryCount(spec: Spec, n: int, m: int)
    requires HStoreTemplate(spec, n).Ok?
    ensures HStoreTemplate(spec, m).Ok?
  {
    hide HStoreTemplate;
    HStorePanicsWithParser(spec, n);
    HStorePanicsWithParser(spec, m);
  }

  /** With the HStore part settled, the step writes exactly when it is not told the count and its calls succeed. */
  lemma HStoreRewritesExactly(e: Surroundings, s: State)
    requires Part(e, s.w, s.copy.spec, 5)
    ensures var t := HStoreStep(e, s).0;
            if HStoreRewrites(e, s) then t.w.writes == s.w.writes + 1 else SameOwned(s.w, t.w)
  {
    hide HStoreTemplate, Ensure, Interfere, ShardCount;
    var s1 := Call(e, s);
    CallOwns(e, s);
    var n := ShardsSeen(e, s1);
    OkForEveryCount(s.copy.spec, ShardCount(s.w.nshards.value, s.copy.spec.nShards), n);
    EnsureWritesExactly(e, s1, Workload(KHStore), HStoreBody(s.copy.spec, n));
  }

  /** When the HStore step goes on, its part is settled exactly when it was told the count. */
  lemma HStorePartExactly(e: Surroundings, s: State)
    requires HStoreStep(e, s).1.Go?
    ensures Part(e, HStoreStep(e, s).0.w, s.copy.spec, 5) <==> HStoreTold(e, s)
    ensures Workload(KHStore) in HStoreStep(e, s).0.w.objects
  {
    hide HStoreTemplate, Ensure, Interfere, ShardCount;
    var s1 := Call(e, s);
    CallOwns(e, s);
    var n := ShardsSeen(e, s1);
    EnsureOwns(e, s1, Workload(KHStore), HStoreBody(s.copy.spec, n));
    assert HStoreTemplate(s.copy.spec, n).Ok?;
    if s.w.nshards.Some? { OkForEveryCount(s.copy.spec, n, ShardCount(s.w.nshards.value, s.copy.spec.nShards)); }
  }

  // ---------- the gateway ----------

  ghost function GatewayBody(spec: Spec, port: int): Body
    requires spec.gateway.Some?
  {
    WorkloadBody(GatewayTemplate(spec.instance, spec.gateway.value, port))
  }

  /** What the gateway step builds hashes like what it should build: HServer is there, and
      its port is read, or what the default port gives hashes the same. */
  ghost predicate GatewayTold(e: Surroundings, s: State) {
    var spec := s.copy.spec;
    spec.gateway.Some? ==>
      && Workload(KHServer) in s.w.objects
      && (!e.tape(s.clock).portReadFails
          || e.hash(Workload(KGateway), GatewayBody(spec, HSERVER_PORT.containerPort))
             == e.hash(Workload(KGateway), GatewayBody(spec, LiveHServerPort(s.w.objects[Workload(KHServer)], spec))))
  }

  ghost predicate GatewayRewrites(e: Surroundings, s: State) {
    && IsTrue(s.copy.conditions, HServerReady) && !GatewayTold(e, s)
    && e.tape(s.clock + 1).fault == NoFault && e.tape(s.clock + 2).fault == NoFault
  }

  /** With the gateway part settled, the step writes exactly when it is not told the port and its calls succeed. */
  lemma GatewayRewritesExactly(e: Surroundings, s: State)
    requires Part(e, s.w, s.copy.spec, 9)
    ensures var t := GatewayStep(e, s).0;
            if GatewayRewrites(e, s) then t.w.writes == s.w.writes + 1 else SameOwned(s.w, t.w)
  {
    hide GatewayTemplate, Ensure, Interfere, LiveHServerPort;
    if s.copy.spec.gateway.Some? && IsTrue(s.copy.conditions, HServerReady) {
      var key, s1 := Workload(KHServer), Call(e, s);
      CallOwns(e, s);
      LivePortOfBody(s.w.objects[key], s1.w.objects[key], s.copy.spec);
      EnsureWritesExactly(e, s1, Workload(KGateway), GatewayBody(s.copy.spec, HServerPortSeen(e, s1)));
    }
  }

  /** When the gateway step goes on, its part is settled exactly when it was told the port. */
  lemma GatewayPartExactly(e: Surroundings, s: State)
    requires GatewayStep(e, s).1.Go? && Workload(KHServer) in s.w.objects
    ensures var t := GatewayStep(e, s).0;
            && (Part(e, t.w, s.copy.spec, 9) <==> GatewayTold(e, s))
            && (s.copy.spec.gateway.Some? ==> Workload(KGateway) in t.w.objects)
            && Workload(KHServer) in t.w.objects
  {
    hide GatewayTemplate, Ensure, Interfere, LiveHServerPort;
    if s.copy.spec.gateway.Some? {
      var key, s1 := Workload(KHServer), Call(e, s);
      CallOwns(e, s);
      LivePortOfBody(s.w.objects[key], s1.w.objects[key], s.copy.spec);
      var body := GatewayBody(s.copy.spec, HServerPortSeen(e, s1));
      EnsureOwns(e, s1, Workload(KGateway), body);
      LivePortOfBody(s1.w.objects[key], Ensure(e, s1, Workload(KGateway), body).0.w.objects[key], s.copy.spec);
    }
  }

  // ---------- a pass over a settled cluster ----------

  /** A pass goes past a step with this verdict. */
  predicate Proceeds(v: Verdict) { v.Go? || (v.Stop? && v.requeue.delayed) }

  /** The state before step `j`, if a pass that is at step `i` gets there. */
  ghost function Before(e: Surroundings, s: State, i: nat, j: nat): Option<State>
    requires i <= j <= |STEPS|
    decreases j - i
  {
    if i == j then Some(s)
    else
      var (t, v) := RunStep(e, s, STEPS[i]);
      if Proceeds(v) then Before(e, t, i + 1, j) else None
  }

  /** From step `i` on, the pass gets to a step that rewrites. */
  ghost predicate SomeRewrite(e: Surroundings, s: State, i: nat)
    requires i <= |STEPS|
  {
    || (i <= 5 && Before(e, s, i, 5).Some? && HStoreRewrites(e, Before(e, s, i, 5).value))
    || (i <= 9 && Before(e, s, i, 9).Some? && GatewayRewrites(e, Before(e, s, i, 9).value))
  }

  ghost predicate Rewrites(e: Surroundings, s: State, i: nat) {
    (i == 5 && HStoreRewrites(e, s)) || (i == 9 && GatewayRewrites(e, s))
  }

  lemma SomeRewriteNext(e: Surroundings, s: State, i: nat)
    requires i < |STEPS|
    ensures var (t, v) := RunStep(e, s, STEPS[i]);
            SomeRewrite(e, s, i) <==> Rewrites(e, s, i) || (Proceeds(v) && SomeRewrite(e, t, i + 1))
  {
    hide RunStep, HStoreRewrites, GatewayRewrites;
  }

  lemma StepRewritesExactly(e: Surroundings, s: State, i: nat)
    requires i < |STEPS| && Settled(e, s.w, s.copy.spec, |STEPS|)
    ensures var t := RunStep(e, s, STEPS[i]).0;
            if Rewrites(e, s, i) then t.w.writes == s.w.writes + 1 else SameOwned(s.w, t.w)
  {
    hide LogDeviceStep, ServicesStep, HMetaStep, HMetaStatusStep, AdminServerStep, HStoreStep, BootstrapHStoreStep, HServerStep,
         BootstrapHServerStep, GatewayStep, ConsoleStep, StatusStep, HStoreRewrites, GatewayRewrites, Part;
    assert Part(e, s.w, s.copy.spec, i);
    StepSettles(e, s, i);
    if i == 5 { HStoreRewritesExactly(e, s); }
    if i == 9 { GatewayRewritesExactly(e, s); }
  }

  /** Writes are only counted up. */
  lemma {:induction false} RunFromGrows(e: Surroundings, s: State, i: nat, delayed: bool)
    requires i <= |STEPS|
    ensures RunFrom(e, s, i, delayed).0.w.writes >= s.w.writes
    decreases |STEPS| - i
  {
    hide RunStep, SameOwned, Part;
    if i < |STEPS| {
      var t := RunStep(e, s, STEPS[i]).0;
      StepSettles(e, s, i);
      RunFromGrows(e, t, i + 1, delayed);
      RunFromGrows(e, t, i + 1, true);
    }
  }

  lemma {:induction false} RunFromRewritesExactly(e: Surroundings, s: State, i: nat, delayed: bool)
    requires i <= |STEPS| && Settled(e, s.w, s.copy.spec, |STEPS|)
    ensures var t := RunFrom(e, s, i, delayed).0;
            if SomeRewrite(e, s, i) then t.w.writes > s.w.writes else SameOwned(s.w, t.w)
    decreases |STEPS| - i
  {
    hide RunStep, OnlyKeys, SameOwned, Part, Rewrites, SomeRewrite;
    if i == |STEPS| {
      SameOwnedItself(s.w);
      NoRewriteLeft(e, s);
    } else {
      var (t, v) := RunStep(e, s, STEPS[i]);
      SomeRewriteNext(e, s, i);
      StepSettles(e, s, i);
      StepRewritesExactly(e, s, i);
      var later := delayed || v.Stop?;
      RunFromGrows(e, t, i + 1, later);
      if !Rewrites(e, s, i) {
        SettledSame(e, s.w, t.w, s.copy.spec, |STEPS|);
        SameWrites(s.w, t.w);
        if Proceeds(v) {
          RunFromRewritesExactly(e, t, i + 1, later);
          if !SomeRewrite(e, t, i + 1) { SameOwnedTransitive(s.w, t.w, RunFrom(e, t, i + 1, later).0.w); }
        }
      }
    }
  }

  lemma NoRewriteLeft(e: Surroundings, s: State)
    ensures !SomeRewrite(e, s, |STEPS|)
  {
  }

  lemma SameWrites(w: World, v: World)
    requires SameOwned(w, v)
    ensures v.writes == w.writes
  {
  }

  /** The pass gets to a step that rewrites. */
  ghost predicate PassRewrites(e: Surroundings, s: State, view: Read) {
    (view.Current? || view.Stale?) && SomeRewrite(e, Begin(Call(e, s), view), 0)
  }

  lemma PassRewritesExactly(e: Surroundings, s: State, view: Read, spec: Spec)
    requires Settled(e, s.w, spec, |STEPS|)
    requires view.Current? || view.Stale? ==> SpecOf(e, s, view) == spec
    ensures var t := Pass(e, s, view).0;
            if PassRewrites(e, s, view) then t.w.writes > s.w.writes else SameOwned(s.w, t.w)
  {
    hide RunFrom, SameOwned, Part, SomeRewrite;
    var s1 := Call(e, s);
    CallOwns(e, s);
    SettledSame(e, s.w, s1.w, spec, |STEPS|);
    SameWrites(s.w, s1.w);
    if view.Current? || view.Stale? {
      RunFromRewritesExactly(e, Begin(s1, view), 0, false);
      if !PassRewrites(e, s, view) { SameOwnedTransitive(s.w, s1.w, Pass(e, s, view).0.w); }
    }
  }

  lemma PassGrows(e: Surroundings, s: State, view: Read)
    ensures Pass(e, s, view).0.w.writes >= s.w.writes
  {
    hide RunFrom;
    RunFromGrows(e, Begin(Call(e, s), view), 0, false);
  }

  /** Every pass that reads a resource reads the given one. */
  ghost predicate SameSpec(e: Surroundings, s: State, views: nat -> Read, n: nat, spec: Spec) {
    forall k | 0 <= k < n ::
      views(k).Missing? || views(k).ReadError? || SpecOf(e, Passes(e, s, views, k), views(k)) == spec
  }

  /** None of the first `n` passes rewrites. */
  ghost predicate NoneRewrites(e: Surroundings, s: State, views: nat -> Read, n: nat) {
    forall k | 0 <= k < n :: !PassRewrites(e, Passes(e, s, views, k), views(k))
  }

  lemma {:induction false} PassesRewriteExactly(e: Surroundings, s: State, views: nat -> Read, n: nat, spec: Spec)
    requires Settled(e, s.w, spec, |STEPS|) && SameSpec(e, s, views, n, spec)
    ensures var t := Passes(e, s, views, n);
            if NoneRewrites(e, s, views, n) then SameOwned(s.w, t.w) else t.w.writes > s.w.writes
    decreases n
  {
    hide Pass, Part, PassRewrites, SameOwned, SpecOf, NoneRewrites, SameSpec;
    if n == 0 {
      SameOwnedItself(s.w);
      NoneOfNone(e, s, views);
    } else {
      var u := Passes(e, s, views, n - 1);
      SplitLast(e, s, views, n - 1, spec);
      PassesRewriteExactly(e, s, views, n - 1, spec);
      PassGrows(e, u, views(n - 1));
      if NoneRewrites(e, s, views, n - 1) {
        SettledSame(e, s.w, u.w, spec, |STEPS|);
        SameWrites(s.w, u.w);
        PassRewritesExactly(e, u, views(n - 1), spec);
        if !PassRewrites(e, u, views(n - 1)) { SameOwnedTransitive(s.w, u.w, Pass(e, u, views(n - 1)).0.w); }
      }
    }
  }

  lemma NoneOfNone(e: Surroundings, s: State, views: nat -> Read)
    ensures NoneRewrites(e, s, views, 0)
  {
  }

  lemma SplitLast(e: Surroundings, s: State, views: nat -> Read, n: nat, spec: Spec)
    requires SameSpec(e, s, views, n + 1, spec)
    ensures SameSpec(e, s, views, n, spec)
    ensures views(n).Missing? || views(n).ReadError? || SpecOf(e, Passes(e, s, views, n), views(n)) == spec
    ensures NoneRewrites(e, s, views, n + 1) <==> NoneRewrites(e, s, views, n) && !PassRewrites(e, Passes(e, s, views, n), views(n))
  {
    hide Passes, PassRewrites, SpecOf;
  }

  // ---------- what a done pass leaves ----------

  /** A pass that is done went past every step. */
  lemma DoneGoes(e: Surroundings, s: State, i: nat)
    requires i < |STEPS| && RunFrom(e, s, i, false).1.Done?
    ensures RunStep(e, s, STEPS[i]).1.Go? && RunFrom(e, RunStep(e, s, STEPS[i]).0, i + 1, false) == RunFrom(e, s, i, false)
  {
    hide RunStep;
    DelayedIsNotDone(e, RunStep(e, s, STEPS[i]).0, i + 1);
  }

  lemma {:induction false} DoneReaches(e: Surroundings, s: State, i: nat, j: nat)
    requires i <= j < |STEPS| && RunFrom(e, s, i, false).1.Done?
    ensures Before(e, s, i, j).Some?
    decreases j - i
  {
    hide RunStep, RunFrom;
    if i < j {
      DoneGoes(e, s, i);
      DoneReaches(e, RunStep(e, s, STEPS[i]).0, i + 1, j);
    }
  }

  /** After the first step the shard record stays as it is. */
  lemma {:induction false} RecordReaches(e: Surroundings, s: State, i: nat, j: nat)
    requires 1 <= i <= j <= |STEPS| && Before(e, s, i, j).Some?
    ensures Before(e, s, i, j).value.w.nshards == s.w.nshards && Before(e, s, i, j).value.copy.spec == s.copy.spec
    decreases j - i
  {
    hide RunStep, OnlyKeys, SameOwned, Part, Itoa;
    if i < j {
      StepSettles(e, s, i);
      RecordReaches(e, RunStep(e, s, STEPS[i]).0, i + 1, j);
    }
  }

  /** From step `i` on, the two steps that pass over a failed read are told what they need. */
  ghost predicate Told(e: Surroundings, s: State, i: nat)
    requires i <= |STEPS|
  {
    && (i <= 5 ==> Before(e, s, i, 5).Some? && HStoreTold(e, Before(e, s, i, 5).value))
    && (i <= 9 ==> Before(e, s, i, 9).Some? && GatewayTold(e, Before(e, s, i, 9).value))
  }

  lemma ToldNext(e: Surroundings, s: State, i: nat)
    requires i < |STEPS| && RunStep(e, s, STEPS[i]).1.Go?
    ensures Told(e, s, i) <==>
            && Told(e, RunStep(e, s, STEPS[i]).0, i + 1)
            && (i == 5 ==> HStoreTold(e, s)) && (i == 9 ==> GatewayTold(e, s))
  {
    hide RunStep, HStoreTold, GatewayTold;
  }

  /** If they are told, a pass that is done leaves every part in place. */
  lemma {:induction false} ToldSettles(e: Surroundings, s: State, i: nat)
    requires i <= |STEPS| && Settled(e, s.w, s.copy.spec, i)
    requires RunFrom(e, s, i, false).1.Done? && Told(e, s, i)
    ensures Settled(e, RunFrom(e, s, i, false).0.w, s.copy.spec, |STEPS|)
    decreases |STEPS| - i
  {
    hide RunStep, RunFrom, Part, Told, OnlyKeys, SameOwned;
    if i == |STEPS| {
      AllRun(e, s);
    } else {
      var (t, v) := RunStep(e, s, STEPS[i]);
      DoneGoes(e, s, i);
      ToldNext(e, s, i);
      PartsNeeded(e, s.w, s.copy.spec, i);
      StepSettles(e, s, i);
      SettledFrame(e, s.w, t.w, s.copy.spec, i);
      ToldPart(e, s, i);
      ToldSettles(e, t, i + 1);
    }
  }

  lemma AllRun(e: Surroundings, s: State)
    ensures RunFrom(e, s, |STEPS|, false) == (s, Done)
  {
  }

  /** A step that goes on, told what it needs, leaves its part in place. */
  lemma ToldPart(e: Surroundings, s: State, i: nat)
    requires i < |STEPS| && RunStep(e, s, STEPS[i]).1.Go?
    requires i == 9 ==> Workload(KHServer) in s.w.objects
    requires i == 5 ==> HStoreTold(e, s)
    requires i == 9 ==> GatewayTold(e, s)
    requires i == 0 ==> Told(e, RunStep(e, s, STEPS[i]).0, 1)
    ensures Part(e, RunStep(e, s, STEPS[i]).0.w, s.copy.spec, i)
  {
    hide LogDeviceStep, ServicesStep, HMetaStep, HMetaStatusStep, AdminServerStep, HStoreStep, BootstrapHStoreStep, HServerStep,
         BootstrapHServerStep, GatewayStep, ConsoleStep, StatusStep, OnlyKeys, SameOwned, GatewayTold, HStoreTemplate,
         HMetaTemplate, AdminServerTemplate, HServerTemplate, ConsoleTemplate, GatewayTemplate, ContainerServicePorts, Itoa;
    StepSettles(e, s, i);
    if i == 0 { RecordReaches(e, RunStep(e, s, STEPS[i]).0, 1, 5); }
    if i == 5 { HStorePartExactly(e, s); }
    if i == 9 { GatewayPartExactly(e, s); }
  }

  /** What is in place at the end and was not written since was in place then. */
  lemma PartBack(e: Surroundings, w: World, v: World, spec: Spec, p: nat, i: nat)
    requires p in {5, 9} && p < i < |STEPS| && Part(e, v, spec, p) && OnlyKeys(w, v, WrittenBy(i)) && v.nshards == w.nshards
    requires p == 9 ==> spec.gateway.Some?
    requires KeysOf(p) <= w.objects.Keys
    ensures Part(e, w, spec, p)
  {
    hide HStoreTemplate, GatewayTemplate, LiveHServerPort;
    assert WrittenBy(i) !! KeysOf(p);
    forall k | k in KeysOf(p) ensures v.objects[k].hash == w.objects[k].hash && v.objects[k].body == w.objects[k].body { }
    assert p == 5 ==> Workload(KHStore) in KeysOf(p);
    assert p == 9 ==> Workload(KHServer) in KeysOf(p) && Workload(KGateway) in KeysOf(p);
    if p == 9 { LivePortOfBody(w.objects[Workload(KHServer)], v.objects[Workload(KHServer)], spec); }
  }

  lemma {:induction false} RunFromBack(e: Surroundings, s: State, p: nat, i: nat)
    requires p in {5, 9} && p < i <= |STEPS| && RunFrom(e, s, i, false).1.Done?
    requires Part(e, RunFrom(e, s, i, false).0.w, s.copy.spec, p)
    requires p == 9 ==> s.copy.spec.gateway.Some?
    requires KeysOf(p) <= s.w.objects.Keys
    ensures Part(e, s.w, s.copy.spec, p)
    decreases |STEPS| - i
  {
    hide RunStep, RunFrom, Part, SameOwned, OnlyKeys, Itoa;
    if i == |STEPS| {
      AllRun(e, s);
    } else {
      var t := RunStep(e, s, STEPS[i]).0;
      DoneGoes(e, s, i);
      StepSettles(e, s, i);
      KeysGrow(s.w, t.w, WrittenBy(i), KeysOf(p));
      RunFromBack(e, t, p, i + 1);
      PartBack(e, s.w, t.w, s.copy.spec, p, i);
    }
  }

  lemma KeysGrow(w: World, v: World, keys: set<Key>, mine: set<Key>)
    requires OnlyKeys(w, v, keys) && mine <= w.objects.Keys && mine !! keys
    ensures mine <= v.objects.Keys
  {
  }

  /** If every part is in place at the end, they were told. */
  lemma {:induction false} SettledTold(e: Surroundings, s: State, i: nat)
    requires i <= |STEPS| && RunFrom(e, s, i, false).1.Done?
    requires Settled(e, RunFrom(e, s, i, false).0.w, s.copy.spec, |STEPS|)
    requires i in {8, 9} ==> Workload(KHServer) in s.w.objects
    ensures Told(e, s, i)
    decreases |STEPS| - i
  {
    hide RunStep, RunFrom, Part, Told, OnlyKeys, SameOwned;
    if i == |STEPS| {
      NothingToTell(e, s);
    } else {
      var t := RunStep(e, s, STEPS[i]).0;
      DoneGoes(e, s, i);
      StepSettles(e, s, i);
      HServerThere(e, s, i);
      SettledTold(e, t, i + 1);
      ToldNext(e, s, i);
      if i == 5 { EndTellsHStore(e, s); }
      if i == 9 { EndTellsGateway(e, s); }
    }
  }

  lemma NothingToTell(e: Surroundings, s: State)
    ensures Told(e, s, |STEPS|)
  {
  }

  /** The HServer workload is there once its step went on. */
  lemma HServerThere(e: Surroundings, s: State, i: nat)
    requires i < |STEPS| && RunStep(e, s, STEPS[i]).1.Go? && (i in {8, 9} ==> Workload(KHServer) in s.w.objects)
    ensures i in {7, 8} ==> Workload(KHServer) in RunStep(e, s, STEPS[i]).0.w.objects
  {
    hide RunStep, HServerTemplate, SameOwned;
    StepSettles(e, s, i);
  }

  lemma EndTellsHStore(e: Surroundings, s: State)
    requires RunStep(e, s, STEPS[5]).1.Go?
    requires var t := RunStep(e, s, STEPS[5]).0;
             RunFrom(e, t, 6, false).1.Done? && Settled(e, RunFrom(e, t, 6, false).0.w, s.copy.spec, |STEPS|)
    ensures HStoreTold(e, s)
  {
    hide HStoreStep, RunFrom, Part, HStoreTold, OnlyKeys, SameOwned;
    var t := RunStep(e, s, STEPS[5]).0;
    HStorePartExactly(e, s);
    StepSettles(e, s, 5);
    assert Part(e, RunFrom(e, t, 6, false).0.w, s.copy.spec, 5);
    RunFromBack(e, t, 5, 6);
  }

  lemma EndTellsGateway(e: Surroundings, s: State)
    requires RunStep(e, s, STEPS[9]).1.Go? && Workload(KHServer) in s.w.objects
    requires var t := RunStep(e, s, STEPS[9]).0;
             RunFrom(e, t, 10, false).1.Done? && Settled(e, RunFrom(e, t, 10, false).0.w, s.copy.spec, |STEPS|)
    ensures GatewayTold(e, s)
  {
    hide GatewayStep, RunFrom, Part, OnlyKeys, SameOwned, LiveHServerPort, GatewayBody;
    var t := RunStep(e, s, STEPS[9]).0;
    if s.copy.spec.gateway.Some? {
      GatewayPartExactly(e, s);
      StepSettles(e, s, 9);
      assert Part(e, RunFrom(e, t, 10, false).0.w, s.copy.spec, 9);
      RunFromBack(e, t, 9, 10);
    }
  }

  /** In the pass, both steps are told what they need. */
  ghost predicate PassTold(e: Surroundings, s: State, view: Read) { Told(e, Begin(Call(e, s), view), 0) }

  /** A pass that is done leaves every part in place exactly when the two steps were told what they need. */
  lemma PassSettlesExactly(e: Surroundings, s: State, view: Read)
    requires Pass(e, s, view).1.Done?
    ensures Settled(e, Pass(e, s, view).0.w, SpecOf(e, s, view), |STEPS|) <==> PassTold(e, s, view)
  {
    hide RunFrom, Part, Told;
    var b := Begin(Call(e, s), view);
    if Told(e, b, 0) { ToldSettles(e, b, 0); }
    if Settled(e, Pass(e, s, view).0.w, SpecOf(e, s, view), |STEPS|) { SettledTold(e, b, 0); }
  }

  /** Quiescence, exactly: after a done pass whose two steps were told what they need, any
      number of passes on the same resource leave every ConfigMap, Service and workload as
      it is if and only if none of them gets to a step that rewrites. */
  lemma QuiescentExactly(e: Surroundings, s: State, view: Read, later: nat -> Read, n: nat)
    requires Pass(e, s, view).1.Done? && PassTold(e, s, view)
    requires SameSpec(e, Pass(e, s, view).0, later, n, SpecOf(e, s, view))
    ensures var w, v := Pass(e, s, view).0.w, Passes(e, Pass(e, s, view).0, later, n).w;
            && (v.writes == w.writes <==> NoneRewrites(e, Pass(e, s, view).0, later, n))
            && (NoneRewrites(e, Pass(e, s, view).0, later, n) ==>
                  && v.logDevice == w.logDevice && v.nshards == w.nshards && v.objects.Keys == w.objects.Keys
                  && forall k :: k in w.objects ==> v.objects[k].hash == w.objects[k].hash && v.objects[k].body == w.objects[k].body)
  {
    hide Pass, Part, PassTold, NoneRewrites, SameSpec, Passes, SpecOf;
    PassSettlesExactly(e, s, view);
    PassesRewriteExactly(e, Pass(e, s, view).0, later, n, SpecOf(e, s, view));
  }
}
