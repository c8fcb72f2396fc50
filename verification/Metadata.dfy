/** `mergeMap` of internal/controller/utils.go, by which a Service keeps the labels
    and annotations others put on it and takes the operator's. */
module Metadata {

  /** Reading a Go map: an absent key reads as the empty text. */
  function At(m: map<string, string>, key: string): string { if key in m then m[key] else "" }

  /** The desired entries over the others; one that asks for the empty text adds no key. */
  function Merged(target: map<string, string>, desired: map<string, string>): map<string, string> {
    target + map k | k in desired && At(target, k) != desired[k] :: desired[k]
  }

  class Labels {
    var entries: map<string, string>

    constructor (entries: map<string, string>)
      ensures this.entries == entries
    {
      this.entries := entries;
    }

    /** The desired map is visited in any order. */
    method Merge(desired: map<string, string>) returns (changed: bool)
      modifies this
      ensures entries == Merged(old(entries), desired)
      ensures changed <==> exists k :: k in desired && At(old(entries), k) != desired[k]
    {
      changed := false;
      ghost var target := entries;
      var todo := desired.Keys;
      ghost var done: set<string> := {};
      assert entries == MergedSoFar(target, desired, done);
      while todo != {}
        invariant todo !! done && todo + done == desired.Keys
        invariant entries == MergedSoFar(target, desired, done)
        invariant changed <==> exists k :: k in done && At(target, k) != desired[k]
        decreases todo
      {
        var key :| key in todo;
        MergeOneMore(target, desired, done, key);
        if At(entries, key) != desired[key] {
          entries := entries[key := desired[key]];
          changed := true;
        }
        todo, done := todo - {key}, done + {key};
      }
      assert done == desired.Keys;
    }
  }

  /** The map when the keys in `done` have been visited. */
  ghost function MergedSoFar(target: map<string, string>, desired: map<string, string>, done: set<string>): map<string, string>
    requires done <= desired.Keys
  {
    target + map k | k in done && At(target, k) != desired[k] :: desired[k]
  }

  lemma MergeOneMore(target: map<string, string>, desired: map<string, string>, done: set<string>, key: string)
    requires done <= desired.Keys && key in desired && key !in done
    ensures var m := MergedSoFar(target, desired, done);
            && At(m, key) == At(target, key)
            && MergedSoFar(target, desired, done + {key}) == if At(m, key) != desired[key] then m[key := desired[key]] else m
  {
  }

  /** After a merge every desired key reads as desired, every other as before,
      no key is lost, and merging again changes nothing. */
  lemma MergedReads(target: map<string, string>, desired: map<string, string>, key: string)
    ensures At(Merged(target, desired), key) == if key in desired then desired[key] else At(target, key)
    ensures target.Keys <= Merged(target, desired).Keys <= target.Keys + desired.Keys
    ensures Merged(Merged(target, desired), desired) == Merged(target, desired)
  {
    var m := Merged(target, desired);
    forall k | k in desired ensures At(m, k) == desired[k] {
      if At(target, k) == desired[k] {
        assert k !in target ==> k !in m;
      }
    }
    assert (map k | k in desired && At(m, k) != desired[k] :: desired[k]) == map[];
  }
}
