/** When the live HStore carries the recorded shard count: exactly as long as every write of
    it read the record, or found the same count in the resource. */
module Shards {
  import opened Text
  import opened Api
  import opened Templates
  import opened Cluster
  import opened Steps
  import opened Settling
  import opened Quiescence
  import opened Safety
  import opened Runs

  /** The live HStore workload, if there is one, has the shard mounts of the recorded count. */
  ghost predicate CarriesRecorded(w: World) {
    Workload(KHStore) in w.objects ==>
      var body := w.objects[Workload(KHStore)].body;
      w.nshards.Some? && body.WorkloadBody? && body.template.mounts == ShardMounts(ShardCount(w.nshards.value, 0))
  }

  /** Two counts give the same mounts. */
  predicate SameMounts(a: int, b: int) { a == b || (a <= 0 && b <= 0) }

  lemma MountsTellCounts(a: int, b: int)
    ensures ShardMounts(a) == ShardMounts(b) <==> SameMounts(a, b)
  {
    assert |ShardMounts(a)| == if a < 0 then 0 else a;
    assert |ShardMounts(b)| == if b < 0 then 0 else b;
  }

  /** The count used is the recorded one exactly when the record is read, or the resource says the same. */
  lemma SeenIsRecorded(e: Surroundings, s: State, n: int32)
    requires s.w.nshards == Some(Itoa(n))
    ensures ShardsSeen(e, Call(e, s)) == n <==> !e.tape(s.clock).shardReadFails || s.copy.spec.nShards == n
  {
    hide Itoa, Atoi, Int32;
    AtoiItoa(n);
    Int32Same(n);
  }

  lemma Int32Same(n: int32)
    ensures Int32(n) == n
  {
  }

  // ---------- the HStore step ----------

  /** The step reads the record, or finds the same count in the resource. */
  ghost predicate CountRight(e: Surroundings, s: State) {
    && s.w.nshards.Some?
    && (!e.tape(s.clock).shardReadFails || SameMounts(s.copy.spec.nShards, ShardCount(s.w.nshards.value, s.copy.spec.nShards)))
  }

  ghost predicate WritesHStore(e: Surroundings, s: State) {
    var s1 := Call(e, s);
    var n := ShardsSeen(e, s1);
    HStoreTemplate(s.copy.spec, n).Ok? && WritesNow(e, s1, Workload(KHStore), HStoreBody(s.copy.spec, n))
  }

  /** The step writes HStore for another count than the recorded one. */
  ghost predicate Strays(e: Surroundings, s: State) { WritesHStore(e, s) && !CountRight(e, s) }

  lemma WrittenBody(e: Surroundings, s: State, key: Key, body: Body)
    requires WritesNow(e, s, key, body)
    ensures var t := Ensure(e, s, key, body).0;
            && key in t.w.objects && t.w.objects[key].body == body && t.w.nshards == s.w.nshards
  {
    hide Interfere;
    CallOwns(e, s);
    CallOwns(e, Call(e, s));
  }

  lemma BuiltMounts(spec: Spec, n: int)
    requires HStoreTemplate(spec, n).Ok?
    ensures HStoreBody(spec, n).WorkloadBody? && HStoreBody(spec, n).template.mounts == ShardMounts(n)
  {
  }

  lemma HStoreStepCarries(e: Surroundings, s: State)
    requires CarriesRecorded(s.w) && ShardsRecorded(s.w)
    ensures CarriesRecorded(HStoreStep(e, s).0.w) <==> !Strays(e, s)
  {
    hide HStoreTemplate, Ensure, Interfere, ShardMounts, HStoreBody, WritesNow, SameMounts;
    var s1 := Call(e, s);
    CallOwns(e, s);
    var n := ShardsSeen(e, s1);
    var t := HStoreStep(e, s).0;
    if HStoreTemplate(s.copy.spec, n).Ok? {
      var body := HStoreBody(s.copy.spec, n);
      BuiltMounts(s.copy.spec, n);
      HStoreStepEnsures(e, s);
      if WritesNow(e, s1, Workload(KHStore), body) {
        WrittenBody(e, s1, Workload(KHStore), body);
        if s.w.nshards.Some? {
          RecordedCount(s.w, 0);
          MountsTellCounts(n, ShardCount(s.w.nshards.value, 0));
          SameMountsSelf(n);
        }
      } else {
        EnsureWritesExactly(e, s1, Workload(KHStore), body);
        CarriesSame(s1.w, t.w);
      }
    }
    CarriesSame(s.w, s1.w);
  }

  lemma SameMountsSelf(n: int)
    ensures SameMounts(n, n)
  {
  }

  lemma HStoreStepEnsures(e: Surroundings, s: State)
    requires HStoreTemplate(s.copy.spec, ShardsSeen(e, Call(e, s))).Ok?
    ensures HStoreStep(e, s) == Ensure(e, Call(e, s), Workload(KHStore), HStoreBody(s.copy.spec, ShardsSeen(e, Call(e, s))))
  {
    hide Ensure, HStoreTemplate, Interfere;
  }

  lemma CarriesSame(w: World, v: World)
    requires SameOwned(w, v) && CarriesRecorded(w)
    ensures CarriesRecorded(v)
  {
  }

  // ---------- the other steps ----------

  lemma OtherStepCarries(e: Surroundings, s: State, i: nat)
    requires i < |STEPS| && i != 5
    ensures var t := RunStep(e, s, STEPS[i]).0;
            && (CarriesRecorded(s.w) ==> CarriesRecorded(t.w))
            && (i > 5 && CarriesRecorded(t.w) ==> CarriesRecorded(s.w))
            && (ShardsRecorded(s.w) ==> ShardsRecorded(t.w))
  {
    hide RunStep, SameOwned, Part, Itoa;
    StepSettles(e, s, i);
    assert Workload(KHStore) !in WrittenBy(i);
    var n: int32 := MinNShards(s.copy.spec.nShards);
  }

  lemma {:induction false} LateCarries(e: Surroundings, s: State, i: nat, delayed: bool)
    requires 5 < i <= |STEPS|
    ensures CarriesRecorded(RunFrom(e, s, i, delayed).0.w) <==> CarriesRecorded(s.w)
    decreases |STEPS| - i
  {
    hide RunStep, CarriesRecorded, ShardsRecorded;
    if i < |STEPS| {
      var t := RunStep(e, s, STEPS[i]).0;
      OtherStepCarries(e, s, i);
      LateCarries(e, t, i + 1, delayed);
      LateCarries(e, t, i + 1, true);
    }
  }

  lemma {:induction false} RunFromCarries(e: Surroundings, s: State, i: nat, delayed: bool)
    requires i <= 5 && CarriesRecorded(s.w) && ShardsRecorded(s.w)
    ensures CarriesRecorded(RunFrom(e, s, i, delayed).0.w)
            <==> !(Before(e, s, i, 5).Some? && Strays(e, Before(e, s, i, 5).value))
    decreases 5 - i
  {
    hide RunStep, CarriesRecorded, ShardsRecorded, Strays;
    var (t, v) := RunStep(e, s, STEPS[i]);
    if i == 5 {
      StepFive(e, s);
      HStoreStepCarries(e, s);
      LateCarries(e, t, 6, delayed);
      LateCarries(e, t, 6, true);
    } else {
      OtherStepCarries(e, s, i);
      if Proceeds(v) { RunFromCarries(e, t, i + 1, delayed || v.Stop?); }
    }
  }

  lemma StepFive(e: Surroundings, s: State)
    ensures RunStep(e, s, STEPS[5]) == HStoreStep(e, s)
  {
    hide HStoreStep;
  }

  // ---------- passes and runs ----------

  /** In the pass HStore is written for another count than the recorded one. */
  ghost predicate PassStrays(e: Surroundings, s: State, view: Read) {
    && (view.Current? || view.Stale?)
    && Before(e, Begin(Call(e, s), view), 0, 5).Some? && Strays(e, Before(e, Begin(Call(e, s), view), 0, 5).value)
  }

  lemma PassCarries(e: Surroundings, s: State, view: Read)
    requires CarriesRecorded(s.w) && ShardsRecorded(s.w)
    ensures CarriesRecorded(Pass(e, s, view).0.w) <==> !PassStrays(e, s, view)
  {
    hide RunFrom, CarriesRecorded, Strays, Before, Interfere;
    CallOwns(e, s);
    CarriesSame(s.w, Call(e, s).w);
    if view.Current? || view.Stale? { RunFromCarries(e, Begin(Call(e, s), view), 0, false); }
  }

  lemma RunRecorded(e: Surroundings, spec: Spec, views: nat -> Read, n: nat)
    ensures ShardsRecorded(Passes(e, Fresh(spec), views, n).w)
  {
    hide Passes, Bounded, Hashed, Gated, Counted, Ordered, ShardsRecorded;
    RunKeeps(e, spec, views, n);
    StoredIsGood(e, Passes(e, Fresh(spec), views, n));
    assert Sharded(e, Passes(e, Fresh(spec), views, n).w);
  }

  ghost predicate CarriesAfter(e: Surroundings, spec: Spec, views: nat -> Read, k: nat) {
    CarriesRecorded(Passes(e, Fresh(spec), views, k).w)
  }

  ghost predicate StraysAt(e: Surroundings, spec: Spec, views: nat -> Read, k: nat) {
    PassStrays(e, Passes(e, Fresh(spec), views, k), views(k))
  }

  lemma OnePass(e: Surroundings, spec: Spec, views: nat -> Read, k: nat)
    requires CarriesAfter(e, spec, views, k)
    ensures CarriesAfter(e, spec, views, k + 1) <==> !StraysAt(e, spec, views, k)
  {
    hide Pass, CarriesRecorded, PassStrays, ShardsRecorded;
    RunRecorded(e, spec, views, k);
    PassCarries(e, Passes(e, Fresh(spec), views, k), views(k));
  }

  /** Over every run: after each of the passes the live HStore carries the recorded count,
      if and only if no pass wrote it without the record while the resource said otherwise. */
  lemma {:induction false} CarriedExactly(e: Surroundings, spec: Spec, views: nat -> Read, n: nat)
    ensures (forall k: nat | k <= n :: CarriesAfter(e, spec, views, k)) <==> (forall k: nat | k < n :: !StraysAt(e, spec, views, k))
    decreases n
  {
    hide CarriesAfter, StraysAt;
    if n == 0 {
      FreshCarries(e, spec, views);
    } else {
      CarriedExactly(e, spec, views, n - 1);
      if CarriesAfter(e, spec, views, n - 1) { OnePass(e, spec, views, n - 1); }
    }
  }

  lemma FreshCarries(e: Surroundings, spec: Spec, views: nat -> Read)
    ensures CarriesAfter(e, spec, views, 0)
  {
  }
}
