/** `extendArgs` of internal/controller/utils.go: the user's arguments completed with defaults. */
module Arguments {
  import opened Text
  import opened Flags

  /** The name a user flag occupies; `-p` is short for `port`. */
  function NameOf(flag: string): string {
    if flag == "-p" then "port" else TrimDashes(flag)
  }

  function Names(user: map<string, string>): set<string> {
    set f | f in user :: NameOf(f)
  }

  /** The user's flags and each default whose dash-stripped name the user did not give. */
  function Merge(user: map<string, string>, defaults: map<string, string>): map<string, string> {
    user + map f | f in defaults && TrimDashes(f) !in Names(user) :: defaults[f]
  }

  /** The merged flags, when both lists can be read. A rejected default list counts as far as it was read. */
  function MergedFlags(args: seq<string>, external: seq<string>): Result<map<string, string>> {
    match Parse(args).status
    case Panicked => Panic
    case Rejected => Err
    case _ =>
      if Parse(external).status == Panicked then Panic
      else Ok(Merge(Parse(args).flags, Parse(external).flags))
  }

  ghost function Extended(args: seq<string>, external: seq<string>): Result<seq<string>> {
    match MergedFlags(args, external)
    case Ok(m) => Ok(Print(m))
    case Err => Err
    case Panic => Panic
  }

  method ExtendArgs(args: seq<string>, externalArgs: seq<string>) returns (r: Result<seq<string>>)
    ensures r == Extended(args, externalArgs)
  {
    var container := new FlagSet();
    var status := container.Parse(args);
    if status == Panicked { return Panic; }
    if status == Rejected { return Err; }

    var existKeys := ExistingNames(container);
    var external := new FlagSet();
    var ignored := external.Parse(externalArgs);
    if ignored == Panicked { return Panic; }
    AddMissing(container, external, existKeys);
    var visited := container.Visit();
    var mergedArgs := Appended(visited);
    return Ok(mergedArgs);
  }

  ghost function NamesIn(flags: set<string>): set<string> { set f | f in flags :: NameOf(f) }

  lemma NamesAdd(flags: set<string>, f: string)
    ensures NamesIn(flags + {f}) == NamesIn(flags) + {NameOf(f)}
  {
  }

  /** The first loop: the names the user's flags occupy. */
  method ExistingNames(container: FlagSet) returns (existKeys: set<string>)
    ensures existKeys == Names(container.actual)
  {
    existKeys := {};
    var todo := container.actual.Keys;
    ghost var done: set<string> := {};
    while todo != {}
      invariant todo !! done && todo + done == container.actual.Keys
      invariant existKeys == NamesIn(done)
      decreases todo
    {
      var flag :| flag in todo;
      var key := TrimDashes(flag);
      if flag == "-p" {
        key := "port";
      }
      NamesAdd(done, flag);
      existKeys, todo, done := existKeys + {key}, todo - {flag}, done + {flag};
    }
    assert done == container.actual.Keys;
  }

  /** The merge restricted to the defaults in `done`. */
  ghost function MergePart(user: map<string, string>, defaults: map<string, string>, done: set<string>): map<string, string> {
    user + map f | f in defaults && f in done && TrimDashes(f) !in Names(user) :: defaults[f]
  }

  lemma MergePartAdd(user: map<string, string>, defaults: map<string, string>, done: set<string>, f: string)
    requires f in defaults && f !in done
    ensures MergePart(user, defaults, done + {f}) ==
            if TrimDashes(f) !in Names(user) then MergePart(user, defaults, done)[f := defaults[f]]
            else MergePart(user, defaults, done)
  {
  }

  /** The second loop: defaults whose name is free, in any order. */
  method AddMissing(container: FlagSet, external: FlagSet, existKeys: set<string>)
    requires container != external && existKeys == Names(container.actual)
    modifies container`actual
    ensures container.actual == Merge(old(container.actual), external.actual)
  {
    ghost var user, defaults := container.actual, external.actual;
    var todo := external.actual.Keys;
    ghost var done: set<string> := {};
    assert container.actual == MergePart(user, defaults, done);
    while todo != {}
      invariant todo !! done && todo + done == external.actual.Keys && external.actual == defaults
      invariant container.actual == MergePart(user, defaults, done)
      decreases todo
    {
      var flag :| flag in todo;
      MergePartAdd(user, defaults, done, flag);
      if TrimDashes(flag) !in existKeys {
        container.actual := container.actual[flag := external.actual[flag]];
      }
      todo, done := todo - {flag}, done + {flag};
    }
    assert MergePart(user, defaults, defaults.Keys) == Merge(user, defaults);
  }

  /** Appends each visited flag and its value. */
  method Appended(visited: seq<(string, string)>) returns (mergedArgs: seq<string>)
    ensures mergedArgs == Pairs(visited)
  {
    mergedArgs := [];
    for i := 0 to |visited|
      invariant mergedArgs == Pairs(visited[..i])
    {
      PairsAppend(visited[..i], [visited[i]]);
      assert visited[..i + 1] == visited[..i] + [visited[i]];
      assert Pairs([visited[i]]) == [visited[i].0, visited[i].1];
      mergedArgs := mergedArgs + [visited[i].0, visited[i].1];
    }
    assert visited[..|visited|] == visited;
  }

  // ---------- what the merge is ----------

  lemma MergeKeyed(user: map<string, string>, defaults: map<string, string>)
    requires Keyed(user) && Keyed(defaults)
    ensures Keyed(Merge(user, defaults))
  {
  }

  lemma MergedIsKeyed(args: seq<string>, external: seq<string>)
    requires MergedFlags(args, external).Ok?
    ensures Keyed(MergedFlags(args, external).value)
  {
    ParseShape(args);
    ParseShape(external);
    MergeKeyed(Parse(args).flags, Parse(external).flags);
  }

  /** The `-p` case that can lose: a default `-p` and a user `-p`, with no other user flag named `p`. */
  predicate DefaultBeatsUser(user: map<string, string>, defaults: map<string, string>) {
    "-p" in user && "-p" in defaults && "p" !in Names(user) && defaults["-p"] != user["-p"]
  }

  lemma MergeHolds(user: map<string, string>, defaults: map<string, string>, f: string)
    ensures f in Merge(user, defaults) <==>
            f in user || (f in defaults && forall g :: g in user ==> NameOf(g) != TrimDashes(f))
    ensures f in Merge(user, defaults) && f !in user ==> Merge(user, defaults)[f] == defaults[f]
  {
  }

  lemma UserWins(user: map<string, string>, defaults: map<string, string>)
    ensures (forall f :: f in user ==> Merge(user, defaults)[f] == user[f]) <==> !DefaultBeatsUser(user, defaults)
  {
    forall f | f in user && f in defaults && f != "-p" ensures Merge(user, defaults)[f] == user[f] {
      assert NameOf(f) in Names(user);
    }
    assert TrimDashes("-p") == "p";
  }

  /** `extendArgs` is a canonical merge: strictly sorted flag/value pairs, for
      exactly the user's flags and the defaults the user did not name. The
      user's value wins everywhere, except exactly for a default `-p`. */
  lemma CanonicalMerge(args: seq<string>, external: seq<string>)
    requires Parse(args).Accepted() && Parse(external).status != Panicked
    ensures var u, d := Parse(args).flags, Parse(external).flags;
            var m := Merge(u, d);
            && Extended(args, external) == Ok(Pairs(Entries(SortedKeys(m.Keys), m)))
            && StrictlySorted(SortedKeys(m.Keys))
            && (forall f :: f in m <==> f in u || (f in d && forall g :: g in u ==> NameOf(g) != TrimDashes(f)))
            && (forall f :: f in m && f !in u ==> m[f] == d[f])
            && ((forall f :: f in u ==> m[f] == u[f]) <==> !DefaultBeatsUser(u, d))
  {
    var u, d := Parse(args).flags, Parse(external).flags;
    forall f {
      MergeHolds(u, d, f);
    }
    UserWins(u, d);
  }

  lemma MergeOnce(user: map<string, string>, defaults: map<string, string>)
    ensures Merge(Merge(user, defaults), defaults) == Merge(user, defaults)
  {
    var m := Merge(user, defaults);
    forall n | n in Names(user) ensures n in Names(m) {
      var f :| f in user && NameOf(f) == n;
      assert f in m;
    }
  }

  /** Extending twice equals extending once exactly when every merged value
      survives printing; otherwise the second call is an error. */
  lemma ExtendIdempotent(args: seq<string>, external: seq<string>)
    requires MergedFlags(args, external).Ok?
    ensures var m, once := MergedFlags(args, external).value, Extended(args, external);
            && (Extended(once.value, external) == once <==> AllPlain(m))
            && (!AllPlain(m) ==> Extended(once.value, external) == Err)
  {
    var m := MergedFlags(args, external).value;
    MergedIsKeyed(args, external);
    RoundTrip(m);
    MergeOnce(Parse(args).flags, Parse(external).flags);
  }

  // ---------- what a printed list passes on ----------

  /** `flag` is directly followed by `value`. */
  ghost predicate PassesOn(args: seq<string>, flag: string, value: string) {
    exists i :: 0 <= i < |args| - 1 && args[i] == flag && args[i + 1] == value
  }

  lemma {:induction false} PairsPass(entries: seq<(string, string)>, flag: string, value: string)
    requires (flag, value) in entries
    ensures PassesOn(Pairs(entries), flag, value)
    decreases |entries|
  {
    var list := Pairs(entries);
    if entries[0] == (flag, value) {
      assert list[0] == flag && list[0 + 1] == value;
    } else {
      PairsPass(entries[1..], flag, value);
      var rest := Pairs(entries[1..]);
      var i :| 0 <= i < |rest| - 1 && rest[i] == flag && rest[i + 1] == value;
      assert list[i + 2] == rest[i] && list[i + 2 + 1] == rest[i + 1];
    }
  }

  lemma PrintPasses(m: map<string, string>, flag: string)
    requires flag in m
    ensures PassesOn(Print(m), flag, m[flag])
  {
    hide SortedKeys;
    var keys := SortedKeys(m.Keys);
    assert flag in keys;
    var i :| 0 <= i < |keys| && keys[i] == flag;
    assert Entries(keys, m)[i] == (flag, m[flag]);
    PairsPass(Entries(keys, m), flag, m[flag]);
  }

  /** What a flag's name is for: `-p` stands for `port`, any other flag for its text without the leading dashes. */
  lemma NamesAreDashless(flag: string)
    ensures NameOf("-p") == "port" && NameOf("--port") == "port" && NameOf("-port") == "port"
    ensures flag != "-p" ==>
              var name := NameOf(flag);
              && |name| <= |flag| && flag[|flag| - |name|..] == name && (name != "" ==> name[0] != '-')
              && forall i :: 0 <= i < |flag| - |name| ==> flag[i] == '-'
  {
    TrimTakesDashes(flag);
    assert "--port"[1..] == "-port" && "-port"[1..] == "port";
  }

  /** Parsing two pairs. */
  lemma TwoParsed(k: string, v: string, l: string, w: string)
    requires IsKey(k) && IsKey(l) && Plain(v) && Plain(w)
    ensures Parse([k, v, l, w]) == Scan(map[k := v][l := w], [], "", Exhausted)
    ensures Parse([k, v]) == Scan(map[k := v], [], "", Exhausted)
  {
    assert [k, v] + [l, w] == [k, v, l, w] && [k, v] + [] == [k, v] && [l, w] + [] == [l, w];
    PairRead(map[], k, v, []);
    PairRead(map[], k, v, [l, w]);
    PairRead(map[k := v], l, w, []);
  }

  /** A user's `-p` keeps the default `--port` out; the rest is added, and all of it comes in byte order. */
  lemma ShortPortExample()
    ensures Extended(["-p", "1"], ["--port", "2", "--x", "3"]) == Ok(["--x", "3", "-p", "1"])
  {
    hide Run, Less, SortedKeys, Merge, Print, IsKey;
    var m := map["-p" := "1", "--x" := "3"];
    ExampleKeys();
    TwoParsed("-p", "1", "--x", "3");
    TwoParsed("--port", "2", "--x", "3");
    ExampleMerge();
    TwoInOrder(m, "--x", "-p");
  }

  lemma ExampleMerge()
    ensures Merge(map["-p" := "1"], map["--port" := "2", "--x" := "3"]) == map["-p" := "1", "--x" := "3"]
  {
    var u, d := map["-p" := "1"], map["--port" := "2", "--x" := "3"];
    NamesAreDashless("-p");
    TrimDown("--port");
    TrimDown("--x");
    assert "--port"[2..] == "port" && "--x"[2..] == "x";
    assert Names(u) == {"port"};
  }

  lemma TrimDown(s: string)
    requires |s| > 2 && s[0] == '-' && s[1] == '-' && s[2] != '-'
    ensures TrimDashes(s) == s[2..]
  {
    var t := s[2..];
    assert TrimDashes(t) == t;
    assert s[1..][1..] == t && s[1..][0] == '-';
    assert TrimDashes(s[1..]) == TrimDashes(t);
  }

  lemma ExampleKeys()
    ensures IsKey("-p") && IsKey("--port") && IsKey("--x") && Less("--x", "-p")
  {
    assert "--x"[..1] == "-p"[..1];
    LessAt("--x", "-p", 1);
  }
}
