/** Status conditions as the resource keeps them (api/v1alpha2/condition_type.go):
    a list, newest transition first, that stands for a map from type to condition. */
module Conditions {
  import opened Text

  /** A point in time; zero is Go's zero time. */
  type Time = nat

  type Instant = t: Time | t > 0 witness 1

  datatype StatusCondition = StatusCondition(kind: string, status: string, reason: string, message: string,
                                             lastTransitionTime: Time, observedGeneration: int)

  const TRUE := "True"

  // ---------- reading ----------

  /** The index of the first condition of a type, or -1. */
  function IndexOf(list: seq<StatusCondition>, kind: string): (i: int)
    ensures -1 <= i < |list|
    ensures i >= 0 ==> list[i].kind == kind && forall j :: 0 <= j < i ==> list[j].kind != kind
    ensures i < 0 ==> forall c :: c in list ==> c.kind != kind
  {
    if list == [] then -1
    else if list[0].kind == kind then 0
    else
      var rest := IndexOf(list[1..], kind);
      assert list == [list[0]] + list[1..];
      if rest < 0 then -1 else rest + 1
  }

  predicate True(list: seq<StatusCondition>, kind: string) {
    IndexOf(list, kind) >= 0 && list[IndexOf(list, kind)].status == TRUE
  }

  // ---------- writing ----------

  /** The condition as stored: a transition time is kept as long as the status is. */
  function Stamped(list: seq<StatusCondition>, c: StatusCondition, generation: int, now: Instant): StatusCondition {
    var i := IndexOf(list, c.kind);
    var since := if i >= 0 && list[i].status == c.status && list[i].lastTransitionTime != 0 then list[i].lastTransitionTime else now;
    c.(lastTransitionTime := since, observedGeneration := generation)
  }

  function Upserted(list: seq<StatusCondition>, c: StatusCondition, generation: int, now: Instant): seq<StatusCondition> {
    var i := IndexOf(list, c.kind);
    var stamped := Stamped(list, c, generation, now);
    if i >= 0 then list[i := stamped] else list + [stamped]
  }

  predicate NewestFirst(list: seq<StatusCondition>) {
    forall i, j :: 0 <= i < j < |list| ==> list[i].lastTransitionTime >= list[j].lastTransitionTime
  }

  /** `SetCondition`. The sort is not stable, so the order of equal times is open. */
  ghost predicate SetTo(before: seq<StatusCondition>, c: StatusCondition, generation: int, now: Instant, after: seq<StatusCondition>) {
    NewestFirst(after) && multiset(after) == multiset(Upserted(before, c, generation, now))
  }

  class HStreamDB {
    var generation: int
    var conditions: seq<StatusCondition>

    constructor (generation: int)
      ensures this.generation == generation && conditions == []
    {
      this.generation := generation;
      conditions := [];
    }

    method GetCondition(conditionType: string) returns (index: int, condition: Option<StatusCondition>)
      ensures index == IndexOf(conditions, conditionType)
      ensures condition == if index >= 0 then Some(conditions[index]) else None
    {
      for i := 0 to |conditions|
        invariant forall j :: 0 <= j < i ==> conditions[j].kind != conditionType
      {
        if conditions[i].kind == conditionType {
          return i, Some(conditions[i]);
        }
      }
      return -1, None;
    }

    method IsConditionTrue(conditionType: string) returns (r: bool)
      ensures r == True(conditions, conditionType)
    {
      var index, condition := GetCondition(conditionType);
      if condition.None? {
        return false;
      }
      return condition.value.status == TRUE;
    }

    method SetCondition(condition: StatusCondition, now: Instant)
      modifies this`conditions
      ensures SetTo(old(conditions), condition, generation, now, conditions)
    {
      var stored := condition.(lastTransitionTime := now, observedGeneration := generation);
      var index, storeCondition := GetCondition(condition.kind);
      if index != -1 {
        if storeCondition.value.status == condition.status && storeCondition.value.lastTransitionTime != 0 {
          stored := stored.(lastTransitionTime := storeCondition.value.lastTransitionTime);
        }
        conditions := conditions[index := stored];
      } else {
        conditions := conditions + [stored];
      }
      SortConditions();
    }

    method SortConditions()
      modifies this`conditions
      ensures NewestFirst(conditions) && multiset(conditions) == multiset(old(conditions))
    {
      var n := 0;
      while n < |conditions|
        invariant n <= |conditions| && NewestFirst(conditions[..n])
        invariant multiset(conditions) == multiset(old(conditions))
      {
        SinkLast(n);
        n := n + 1;
      }
      assert conditions[..n] == conditions;
    }

    /** Sinks the condition at `n` into the sorted ones before it. */
    method SinkLast(n: nat)
      requires n < |conditions| && NewestFirst(conditions[..n])
      modifies this`conditions
      ensures |conditions| == old(|conditions|) && NewestFirst(conditions[..n + 1])
      ensures multiset(conditions) == multiset(old(conditions))
    {
      var k := n;
      while k > 0 && conditions[k - 1].lastTransitionTime < conditions[k].lastTransitionTime
        invariant k <= n < |conditions| == old(|conditions|)
        invariant forall i, j :: 0 <= i < j <= n && j != k ==> conditions[i].lastTransitionTime >= conditions[j].lastTransitionTime
        invariant multiset(conditions) == multiset(old(conditions))
      {
        conditions := conditions[k := conditions[k - 1]][k - 1 := conditions[k]];
        k := k - 1;
      }
    }
  }

  // ---------- what the list means ----------

  predicate Distinct(list: seq<StatusCondition>) {
    forall i, j :: 0 <= i < j < |list| ==> list[i].kind != list[j].kind
  }

  /** The list holds exactly the conditions of the map, one per type. */
  ghost predicate Represents(list: seq<StatusCondition>, m: map<string, StatusCondition>) {
    && Distinct(list)
    && (forall c :: c in list ==> c.kind in m && m[c.kind] == c)
    && (forall k :: k in m ==> m[k].kind == k && m[k] in list)
  }

  ghost function ByType(list: seq<StatusCondition>): map<string, StatusCondition> {
    map k | k in (set c | c in list :: c.kind) :: list[IndexOf(list, k)]
  }

  lemma DistinctRepresents(list: seq<StatusCondition>)
    requires Distinct(list)
    ensures Represents(list, ByType(list))
  {
  }

  /** What one call does to the map. */
  function Updated(m: map<string, StatusCondition>, c: StatusCondition, generation: int, now: Instant): map<string, StatusCondition> {
    var since := if c.kind in m && m[c.kind].status == c.status && m[c.kind].lastTransitionTime != 0
                 then m[c.kind].lastTransitionTime else now;
    m[c.kind := c.(lastTransitionTime := since, observedGeneration := generation)]
  }

  lemma FoundInMap(list: seq<StatusCondition>, m: map<string, StatusCondition>, kind: string)
    requires Represents(list, m)
    ensures IndexOf(list, kind) >= 0 <==> kind in m
    ensures kind in m ==> list[IndexOf(list, kind)] == m[kind]
  {
  }

  lemma UpsertedRepresents(list: seq<StatusCondition>, m: map<string, StatusCondition>, c: StatusCondition, generation: int, now: Instant)
    requires Represents(list, m)
    ensures Represents(Upserted(list, c, generation, now), Updated(m, c, generation, now))
  {
    FoundInMap(list, m, c.kind);
    var i, after, m' := IndexOf(list, c.kind), Upserted(list, c, generation, now), Updated(m, c, generation, now);
    var stamped := m'[c.kind];
    assert i < 0 ==> after[|list|] == stamped;
    forall x | x in after ensures x.kind in m' && m'[x.kind] == x {
      var p :| 0 <= p < |after| && after[p] == x;
      if x != stamped { assert x == list[p]; assert i >= 0 ==> p != i; }
    }
    forall k | k in m' ensures m'[k].kind == k && m'[k] in after {
      if k == c.kind {
        assert after[if i < 0 then |list| else i] == stamped;
      } else {
        var p :| 0 <= p < |list| && list[p] == m[k];
        assert after[p] == m[k];
      }
    }
  }

  /** A list with distinct types holds every condition once. */
  lemma DistinctOnce(list: seq<StatusCondition>, p: nat)
    requires Distinct(list) && p < |list|
    ensures multiset(list)[list[p]] == 1
  {
    var x := list[p];
    assert list == list[..p] + [x] + list[p + 1..];
    assert x !in list[..p] && x !in list[p + 1..];
  }

  lemma DistinctPermuted(a: seq<StatusCondition>, b: seq<StatusCondition>)
    requires Distinct(a) && multiset(a) == multiset(b)
    ensures Distinct(b)
  {
    forall i, j | 0 <= i < j < |b| ensures b[i].kind != b[j].kind {
      assert b[i] in multiset(b) && b[j] in multiset(b);
      var p :| 0 <= p < |a| && a[p] == b[i];
      var q :| 0 <= q < |a| && a[q] == b[j];
      if b[i].kind == b[j].kind {
        TwiceThere(b, i, j);
        DistinctOnce(a, p);
        assert false;
      }
    }
  }

  lemma TwiceThere(list: seq<StatusCondition>, i: nat, j: nat)
    requires i < j < |list| && list[i] == list[j]
    ensures multiset(list)[list[i]] >= 2
  {
    assert list == list[..i] + [list[i]] + list[i + 1..j] + [list[j]] + list[j + 1..];
  }

  lemma RepresentsPermuted(a: seq<StatusCondition>, b: seq<StatusCondition>, m: map<string, StatusCondition>)
    requires Represents(a, m) && multiset(a) == multiset(b)
    ensures Represents(b, m)
  {
    DistinctPermuted(a, b);
    assert forall x :: x in a <==> x in multiset(a);
    assert forall x :: x in b <==> x in multiset(b);
  }

  // ---------- any sequence of calls ----------

  datatype Setting = Setting(condition: StatusCondition, generation: int, now: Instant)

  /** The list may be what a new resource's list is after these calls. */
  ghost predicate After(calls: seq<Setting>, list: seq<StatusCondition>)
    decreases |calls|
  {
    if calls == [] then list == []
    else
      var last := calls[|calls| - 1];
      exists before :: After(calls[..|calls| - 1], before) && SetTo(before, last.condition, last.generation, last.now, list)
  }

  /** The last call about a type. */
  function LastCall(calls: seq<Setting>, kind: string): (c: Option<Setting>)
    ensures c.Some? ==> c.value in calls && c.value.condition.kind == kind
    ensures c.None? ==> forall x :: x in calls ==> x.condition.kind != kind
  {
    if calls == [] then None
    else
      var last := calls[|calls| - 1];
      assert calls == calls[..|calls| - 1] + [last];
      if last.condition.kind == kind then Some(last) else LastCall(calls[..|calls| - 1], kind)
  }

  /** The time of the last call that gave a type another status than it had. */
  function LastChange(calls: seq<Setting>, kind: string): Time {
    if calls == [] then 0
    else
      var earlier, last := calls[..|calls| - 1], calls[|calls| - 1];
      var known := LastCall(earlier, kind);
      if last.condition.kind == kind && (known.None? || known.value.condition.status != last.condition.status)
      then last.now
      else LastChange(earlier, kind)
  }

  /** The condition the calls add up to for a type. */
  function Told(calls: seq<Setting>, kind: string): Option<StatusCondition> {
    match LastCall(calls, kind)
    case None => None
    case Some(c) => Some(c.condition.(lastTransitionTime := LastChange(calls, kind), observedGeneration := c.generation))
  }

  ghost predicate Tells(m: map<string, StatusCondition>, calls: seq<Setting>) {
    forall kind :: Told(calls, kind) == if kind in m then Some(m[kind]) else None
  }

  lemma {:induction false} ChangeIsInstant(calls: seq<Setting>, kind: string)
    requires LastCall(calls, kind).Some?
    ensures LastChange(calls, kind) > 0
  {
    var earlier := calls[..|calls| - 1];
    if LastCall(earlier, kind).Some? { ChangeIsInstant(earlier, kind); }
  }

  lemma UpdatedTells(calls: seq<Setting>, m: map<string, StatusCondition>, last: Setting)
    requires Tells(m, calls)
    ensures Tells(Updated(m, last.condition, last.generation, last.now), calls + [last])
  {
    var all := calls + [last];
    assert all[..|all| - 1] == calls && all[|all| - 1] == last;
    var kind := last.condition.kind;
    assert Told(calls, kind) == if kind in m then Some(m[kind]) else None;
    if kind in m { ChangeIsInstant(calls, kind); }
  }

  /** After any calls from an empty list there is a map it stands for, and that map is what the calls say. */
  lemma {:induction false} ListStandsForMap(calls: seq<Setting>, list: seq<StatusCondition>) returns (m: map<string, StatusCondition>)
    requires After(calls, list)
    ensures Represents(list, m) && Tells(m, calls) && NewestFirst(list)
    decreases |calls|
  {
    hide Represents, Tells, Updated, Upserted, NewestFirst;
    if calls == [] {
      m := map[];
      NothingSet();
    } else {
      var earlier, last := calls[..|calls| - 1], calls[|calls| - 1];
      var before :| After(earlier, before) && SetTo(before, last.condition, last.generation, last.now, list);
      var m0 := ListStandsForMap(earlier, before);
      m := Updated(m0, last.condition, last.generation, last.now);
      UpsertedRepresents(before, m0, last.condition, last.generation, last.now);
      RepresentsPermuted(Upserted(before, last.condition, last.generation, last.now), list, m);
      UpdatedTells(earlier, m0, last);
      assert calls == earlier + [last];
    }
  }

  lemma NothingSet()
    ensures Represents([], map[]) && Tells(map[], []) && NewestFirst([])
  {
  }

  /** After any sequence of calls on a new resource: one condition per type, newest
      transition first; a type is there exactly when it was set, as the last call left it,
      and its transition time is when its status last changed. */
  lemma ListAfterCalls(calls: seq<Setting>, list: seq<StatusCondition>, kind: string)
    requires After(calls, list)
    ensures forall i, j :: 0 <= i < j < |list| ==>
              list[i].kind != list[j].kind && list[i].lastTransitionTime >= list[j].lastTransitionTime
    ensures True(list, kind) <==> LastCall(calls, kind).Some? && LastCall(calls, kind).value.condition.status == "True"
    ensures IndexOf(list, kind) >= 0 <==> LastCall(calls, kind).Some?
    ensures var i := IndexOf(list, kind);
            i >= 0 ==>
              && list[i].lastTransitionTime == LastChange(calls, kind)
              && list[i] == LastCall(calls, kind).value.condition.(
                   lastTransitionTime := LastChange(calls, kind), observedGeneration := LastCall(calls, kind).value.generation)
  {
    var m := ListStandsForMap(calls, list);
    FoundInMap(list, m, kind);
    assert Told(calls, kind) == if kind in m then Some(m[kind]) else None;
  }

  /** The pipeline's view: from any list with distinct types, one call changes what
      `IsConditionTrue` says of the given type and of no other. */
  lemma SetsOneTruth(before: seq<StatusCondition>, c: StatusCondition, generation: int, now: Instant, after: seq<StatusCondition>, kind: string)
    requires Distinct(before) && SetTo(before, c, generation, now, after)
    ensures Distinct(after)
    ensures True(after, kind) == if kind == c.kind then c.status == TRUE else True(before, kind)
  {
    var m := ByType(before);
    DistinctRepresents(before);
    UpsertedRepresents(before, m, c, generation, now);
    RepresentsPermuted(Upserted(before, c, generation, now), after, Updated(m, c, generation, now));
    FoundInMap(before, m, kind);
    FoundInMap(after, Updated(m, c, generation, now), kind);
  }
}
