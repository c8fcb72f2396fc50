/** internal/flagset.go: the operator's own command-line parser and its sorted printer. */
module Flags {
  import opened Text

  // ---------- tokens ----------

  /** What the parser makes of one argument, before it looks at its state. */
  datatype Token =
    | Blank                              // ""
    | Lone                               // "-"
    | Terminator                         // "--"
    | BadFlag                            // a dash, then no usable name
    | Flag(key: string)                  // --name
    | Assign(key: string, value: string) // --name=value
    | Word(word: string)                 // a value
    | BadWord                            // a value that starts with '='

  predicate Dashed(s: string) { s != "" && s[0] == '-' }

  /** The number of leading dashes that belong to the flag syntax. */
  function Minuses(s: string): nat {
    if |s| > 1 && s[1] == '-' then 2 else 1
  }

  /** The first `=` of `s` at or after `from`, or the length of `s`. */
  function EqualsAt(s: string, from: nat): (i: nat)
    requires from <= |s|
    ensures from <= i <= |s|
    ensures forall j :: from <= j < i ==> s[j] != '='
    ensures i < |s| ==> s[i] == '='
    decreases |s| - from
  {
    if from == |s| || s[from] == '=' then from else EqualsAt(s, from + 1)
  }

  function Classify(s: string): Token {
    if s == "" then Blank
    else if s[0] != '-' then (if s[0] == '=' then BadWord else Word(s))
    else if s == "-" then Lone
    else if s == "--" then Terminator
    else
      var m := Minuses(s);
      if s[m] == '-' || s[m] == '=' then BadFlag
      else
        var i := EqualsAt(s, m + 1);
        if i < |s| then Assign(s[..i], s[i + 1..]) else Flag(s)
  }

  /** The shape of every key the parser can store: one or two dashes, then a
      nonempty name that does not start with a dash and holds no `=`. */
  predicate IsKey(k: string) {
    && |k| >= 2 && k[0] == '-'
    && (k[1] == '-' ==> |k| >= 3 && k[2] != '-')
    && '=' !in k
  }

  lemma KeyIsFlagToken(k: string)
    ensures IsKey(k) <==> Classify(k) == Flag(k)
  {
    if k != "" && k[0] == '-' && k != "-" && k != "--" {
      var m := Minuses(k);
      if k[m] != '-' && k[m] != '=' {
        var i := EqualsAt(k, m + 1);
        assert forall j :: 0 <= j < |k| && j <= m ==> k[j] != '=';
      }
    }
  }

  lemma ClassifyGivesKeys(s: string)
    ensures Classify(s).Flag? ==> Classify(s).key == s && IsKey(s)
    ensures Classify(s).Assign? ==> IsKey(Classify(s).key) && s == Classify(s).key + "=" + Classify(s).value
  {
    KeyIsFlagToken(s);
    if Classify(s).Assign? { AssignGivesKey(s); }
  }

  lemma AssignGivesKey(s: string)
    requires Classify(s).Assign?
    ensures IsKey(Classify(s).key) && s == Classify(s).key + "=" + Classify(s).value
  {
    var m := Minuses(s);
    var i := EqualsAt(s, m + 1);
    assert forall j :: 0 <= j < i && j <= m ==> s[..i][j] != '=';
    assert s == s[..i] + [s[i]] + s[i + 1..];
  }

  // ---------- the parser as a function ----------

  /** How a scan ended: the arguments ran out, `--` was met, a token was
      rejected, or a lone `-` was indexed out of range. */
  datatype Status = Exhausted | Terminated | Rejected | Panicked

  /** The parser's fields when it stops, and how it stopped. */
  datatype Scan = Scan(flags: map<string, string>, rest: seq<string>, last: string, status: Status) {
    predicate Accepted() { status == Exhausted || status == Terminated }
  }

  /** Parsing `args` from a parser that holds `flags` and waits for the value of `last` ("" if none). */
  function Run(flags: map<string, string>, last: string, args: seq<string>): Scan
    decreases |args|
  {
    if args == [] then Scan(flags, args, last, Exhausted)
    else
      var s := args[0];
      if Dashed(s) && last != "" then Scan(flags, args, last, Rejected)
      else
        match Classify(s)
        case Blank => Run(flags, "", args[1..])
        case Lone => Scan(flags, args, last, Panicked)
        case Terminator => Scan(flags, args[1..], last, Terminated)
        case BadFlag => Scan(flags, args, last, Rejected)
        case Flag(k) => Run(flags[k := ""], k, args[1..])
        case Assign(k, v) => Run(flags[k := v], last, args[1..])
        case Word(w) =>
          if last == "" then Scan(flags, args, last, Rejected) else Run(flags[last := w], "", args[1..])
        case BadWord => Scan(flags, args, last, Rejected)
  }

  /** A fresh parser's run. */
  function Parse(args: seq<string>): Scan { Run(map[], "", args) }

  predicate Keyed(m: map<string, string>) { forall k :: k in m ==> IsKey(k) }

  /** The parser stores well-shaped keys only, never drops one, and leaves a suffix of its input. */
  lemma {:induction false} RunShape(flags: map<string, string>, last: string, args: seq<string>)
    requires Keyed(flags) && (last != "" ==> last in flags)
    ensures var r := Run(flags, last, args);
            && Keyed(r.flags) && flags.Keys <= r.flags.Keys
            && (r.last != "" ==> r.last in r.flags)
            && |r.rest| <= |args| && r.rest == args[|args| - |r.rest|..]
            && (r.status == Exhausted ==> r.rest == [])
    decreases |args|
  {
    if args != [] {
      var s := args[0];
      ClassifyGivesKeys(s);
      if !(Dashed(s) && last != "") {
        match Classify(s)
        case Blank => RunShape(flags, "", args[1..]);
        case Flag(k) => RunShape(flags[k := ""], k, args[1..]);
        case Assign(k, v) => RunShape(flags[k := v], last, args[1..]);
        case Word(w) =>
          if last != "" { RunShape(flags[last := w], "", args[1..]); }
        case _ =>
      }
    }
  }

  lemma ParseShape(args: seq<string>)
    ensures Keyed(Parse(args).flags)
    ensures exists n :: 0 <= n <= |args| && Parse(args).rest == args[n..]
  {
    RunShape(map[], "", args);
    var n := |args| - |Parse(args).rest|;
    assert 0 <= n <= |args| && Parse(args).rest == args[n..];
  }

  /** Parsing a concatenation: the second list continues where the first one ran out. */
  lemma {:induction false} RunAppend(flags: map<string, string>, last: string, a: seq<string>, b: seq<string>)
    ensures var r := Run(flags, last, a);
            Run(flags, last, a + b) ==
            if r.status == Exhausted then Run(r.flags, r.last, b) else r.(rest := r.rest + b)
    decreases |a|
  {
    if a == [] {
      assert a + b == b;
    } else {
      assert (a + b)[0] == a[0] && (a + b)[1..] == a[1..] + b;
      var s := a[0];
      if !(Dashed(s) && last != "") {
        match Classify(s)
        case Blank => RunAppend(flags, "", a[1..], b);
        case Flag(k) => RunAppend(flags[k := ""], k, a[1..], b);
        case Assign(k, v) => RunAppend(flags[k := v], last, a[1..], b);
        case Word(w) =>
          if last != "" { RunAppend(flags[last := w], "", a[1..], b); }
        case _ =>
      }
    }
  }

  // ---------- which lists are accepted ----------

  /** A token that sets a flag: it has key shape, or key shape before its first `=`. */
  ghost predicate SetsFlag(s: string) {
    exists j :: 0 <= j <= |s| && IsKey(s[..j]) && (j == |s| || s[j] == '=')
  }

  lemma SetsFlagExactly(s: string)
    ensures SetsFlag(s) <==> Classify(s).Flag? || Classify(s).Assign?
  {
    if SetsFlag(s) {
      var j :| 0 <= j <= |s| && IsKey(s[..j]) && (j == |s| || s[j] == '=');
      if j == |s| {
        assert s[..j] == s;
        KeyIsFlagToken(s);
      } else {
        assert forall i :: 0 <= i < j ==> s[i] == s[..j][i];
        assert EqualsAt(s, Minuses(s) + 1) == j;
      }
    }
    ClassifyGivesKeys(s);
    if Classify(s).Flag? { assert s[..|s|] == s; }
    if Classify(s).Assign? {
      var k := Classify(s).key;
      assert s == k + "=" + Classify(s).value;
      assert s[..|k|] == k && s[|k|] == '=';
    }
  }

  /** Where the first `--` is, or the length of the list. */
  function FirstTerminator(args: seq<string>): (n: nat)
    ensures n <= |args| && (n < |args| ==> args[n] == "--") && forall i :: 0 <= i < n ==> args[i] != "--"
  {
    if args == [] || args[0] == "--" then 0 else 1 + FirstTerminator(args[1..])
  }

  /** The token before is a bare flag, or, at the start, a flag is waiting. */
  predicate FollowsFlag(args: seq<string>, i: nat, waiting: bool)
    requires i <= |args|
  {
    if i == 0 then waiting else IsKey(args[i - 1])
  }

  /** A token in its place: an empty one anywhere; a dashed one that sets a flag, not right after a
      bare flag; any other one, not starting with `=`, right after a bare flag. */
  ghost predicate InPlace(args: seq<string>, i: nat, waiting: bool)
    requires i < |args|
  {
    args[i] != "" ==>
      if args[i][0] == '-' then SetsFlag(args[i]) && !FollowsFlag(args, i, waiting)
      else args[i][0] != '=' && FollowsFlag(args, i, waiting)
  }

  /** Every token before the first `--` is in its place, and the `--` is not right after a bare flag. */
  ghost predicate AllInPlace(args: seq<string>, waiting: bool) {
    && (forall i :: 0 <= i < FirstTerminator(args) ==> InPlace(args, i, waiting))
    && (FirstTerminator(args) < |args| ==> !FollowsFlag(args, FirstTerminator(args), waiting))
  }

  lemma AllInPlaceNext(args: seq<string>, waiting: bool)
    requires args != [] && args[0] != "--"
    ensures AllInPlace(args, waiting) <==> InPlace(args, 0, waiting) && AllInPlace(args[1..], IsKey(args[0]))
  {
    hide SetsFlag, IsKey;
    var rest, n := args[1..], FirstTerminator(args[1..]);
    assert FirstTerminator(args) == n + 1;
    assert forall i: nat | i < |rest| :: rest[i] == args[i + 1];
    forall i: nat | i < n ensures InPlace(rest, i, IsKey(args[0])) <==> InPlace(args, i + 1, waiting) {
    }
    if AllInPlace(args, waiting) {
      forall i: nat | i < n ensures InPlace(rest, i, IsKey(args[0])) { assert InPlace(args, i + 1, waiting); }
    }
    if InPlace(args, 0, waiting) && AllInPlace(rest, IsKey(args[0])) {
      forall i: nat | i < n + 1 ensures InPlace(args, i, waiting) { if i > 0 { assert InPlace(rest, i - 1, IsKey(args[0])); } }
    }
  }

  /** A list is accepted exactly when every token is in its place. */
  lemma {:induction false} RunAcceptsExactly(flags: map<string, string>, last: string, args: seq<string>)
    ensures Run(flags, last, args).Accepted() <==> AllInPlace(args, last != "")
    decreases |args|
  {
    hide SetsFlag, AllInPlace;
    if args == [] {
      EmptyInPlace(args, last != "");
    } else if args[0] == "--" {
      TerminatorInPlace(args, last != "");
    } else {
      var s := args[0];
      AllInPlaceNext(args, last != "");
      SetsFlagExactly(s);
      KeyIsFlagToken(s);
      ClassifyGivesKeys(s);
      match Classify(s)
      case Blank => RunAcceptsExactly(flags, "", args[1..]);
      case Flag(k) => RunAcceptsExactly(flags[k := ""], k, args[1..]);
      case Assign(k, v) => RunAcceptsExactly(flags[k := v], last, args[1..]);
      case Word(w) => RunAcceptsExactly(flags[last := w], "", args[1..]);
      case _ =>
    }
  }

  lemma EmptyInPlace(args: seq<string>, waiting: bool)
    requires args == []
    ensures AllInPlace(args, waiting)
  {
  }

  lemma TerminatorInPlace(args: seq<string>, waiting: bool)
    requires args != [] && args[0] == "--"
    ensures AllInPlace(args, waiting) <==> !waiting
  {
  }

  /** Which lists the parser accepts, position by position. */
  lemma AcceptsExactly(args: seq<string>)
    ensures Parse(args).Accepted() <==> AllInPlace(args, false)
  {
    RunAcceptsExactly(map[], "", args);
  }

  /** Exactly when parsing indexes out of range: some lone `-` follows a prefix
      that parses to its end with no flag waiting for a value. */
  ghost predicate ReachesLoneDash(args: seq<string>) {
    exists i :: 0 <= i < |args| && LoneDashAt(args, i)
  }

  ghost predicate LoneDashAt(args: seq<string>, i: nat)
    requires i < |args|
  {
    args[i] == "-" && Parse(args[..i]).status == Exhausted && Parse(args[..i]).last == ""
  }

  lemma PanicExactlyAtLoneDash(args: seq<string>)
    ensures Parse(args).status == Panicked <==> ReachesLoneDash(args)
  {
    if ReachesLoneDash(args) {
      var i :| 0 <= i < |args| && LoneDashAt(args, i);
      assert args == args[..i] + args[i..];
      RunAppend(map[], "", args[..i], args[i..]);
    }
    if Parse(args).status == Panicked {
      var i := PanicWitness(map[], "", args);
      assert LoneDashAt(args, i);
    }
  }

  lemma {:induction false} PanicWitness(flags: map<string, string>, last: string, args: seq<string>) returns (i: nat)
    requires Run(flags, last, args).status == Panicked
    ensures i < |args| && args[i] == "-"
    ensures Run(flags, last, args[..i]).status == Exhausted && Run(flags, last, args[..i]).last == ""
    decreases |args|
  {
    var s := args[0];
    if s == "-" {
      i := 0;
    } else {
      match Classify(s) {
        case Blank => i := PanicWitness(flags, "", args[1..]);
        case Flag(k) => i := PanicWitness(flags[k := ""], k, args[1..]);
        case Assign(k, v) => i := PanicWitness(flags[k := v], last, args[1..]);
        case Word(w) => i := PanicWitness(flags[last := w], "", args[1..]);
      }
      i := i + 1;
      assert args[..i][0] == s;
      assert args[..i][1..] == args[1..][..i - 1];
    }
  }

  /** The documented guarantee: without a lone `-` the parser never panics. */
  /** Two lists that index out of range: a lone dash first, or after a flag that has its value. */
  lemma DashPanics()
    ensures Parse(["-"]).status == Panicked && Parse(["--x", "1", "-"]).status == Panicked
    ensures Parse(["--x", "-"]).status == Rejected
  {
    var flag := "--x";
    assert EqualsAt(flag, 3) == 3;
    var list := ["--x", "1", "-"];
    assert list[1..] == ["1", "-"] && list[1..][1..] == ["-"];
    assert Run(map[], "", list) == Run(map[][flag := ""], flag, list[1..]);
    assert Run(map[][flag := ""], flag, list[1..]) == Run(map[][flag := ""][flag := "1"], "", list[1..][1..]);
    var rejected := ["--x", "-"];
    assert rejected[1..] == ["-"];
    assert Run(map[], "", rejected) == Run(map[][flag := ""], flag, rejected[1..]);
  }

  lemma NoLoneDashNoPanic(args: seq<string>)
    requires "-" !in args
    ensures Parse(args).status != Panicked
  {
    PanicExactlyAtLoneDash(args);
  }

  // ---------- the sorted printer ----------

  predicate Sorted(s: seq<string>) {
    forall i, j :: 0 <= i < j < |s| ==> !Less(s[j], s[i])
  }

  predicate StrictlySorted(s: seq<string>) {
    forall i, j :: 0 <= i < j < |s| ==> Less(s[i], s[j])
  }

  ghost predicate IsLeast(k: string, keys: set<string>) {
    k in keys && forall x :: x in keys ==> !Less(x, k)
  }

  lemma {:induction false} LeastExists(keys: set<string>) returns (k: string)
    requires keys != {}
    ensures IsLeast(k, keys)
    decreases keys
  {
    k :| k in keys;
    if keys == {k} {
      LessIrreflexive(k);
    } else {
      var m := LeastExists(keys - {k});
      LessIrreflexive(k);
      LessTotal(k, m);
      if Less(k, m) {
        forall x | x in keys ensures !Less(x, k) {
          if Less(x, k) && x != k { LessTransitive(x, k, m); }
        }
      } else {
        forall x | x in keys ensures !Less(x, m) { }
        k := m;
      }
    }
  }

  /** The flags of a map in increasing order. */
  ghost function SortedKeys(keys: set<string>): (s: seq<string>)
    ensures StrictlySorted(s) && (forall k :: k in s <==> k in keys)
    ensures |s| == |keys|
    decreases keys
  {
    if keys == {} then []
    else
      var _ := LeastWitness(keys);
      var k :| IsLeast(k, keys);
      var rest := SortedKeys(keys - {k});
      assert forall x :: x in rest ==> Less(k, x) by {
        forall x | x in rest ensures Less(k, x) { LessTotal(k, x); }
      }
      [k] + rest
  }

  ghost function LeastWitness(keys: set<string>): (k: string)
    requires keys != {}
    ensures IsLeast(k, keys)
  {
    assert exists k :: IsLeast(k, keys) by { var k := LeastExists(keys); }
    var k :| IsLeast(k, keys); k
  }

  /** There is only one way to sort distinct keys. */
  lemma {:induction false} SortedIsUnique(s: seq<string>, keys: set<string>)
    requires Sorted(s) && multiset(s) == multiset(keys)
    ensures s == SortedKeys(keys)
    decreases |s|
  {
    if s == [] {
      assert forall k :: k in keys <==> k in multiset(s);
    } else {
      hide Sorted, SortedKeys, StrictlySorted;
      TailOfKeys(s, keys);
      FirstIsLeast(s, keys);
      SortedIsUnique(s[1..], keys - {s[0]});
      SortedKeysHead(keys, s[0]);
      assert s == [s[0]] + s[1..];
    }
  }

  lemma TailOfKeys(s: seq<string>, keys: set<string>)
    requires s != [] && Sorted(s) && multiset(s) == multiset(keys)
    ensures keys != {} && Sorted(s[1..]) && multiset(s[1..]) == multiset(keys - {s[0]})
  {
    hide Less;
    assert s[0] in multiset(s);
    assert s == [s[0]] + s[1..];
    assert multiset(s[1..]) == multiset(s) - multiset{s[0]};
    assert multiset(keys - {s[0]}) == multiset(keys) - multiset{s[0]};
  }

  lemma FirstIsLeast(s: seq<string>, keys: set<string>)
    requires s != [] && keys != {} && Sorted(s) && multiset(s) == multiset(keys)
    ensures s[0] == SortedKeys(keys)[0]
  {
    hide Less;
    var t := SortedKeys(keys);
    assert t[0] in keys;
    assert t[0] in multiset(s) && s[0] in multiset(s);
    var i :| 0 <= i < |s| && s[i] == t[0];
    assert i == 0 || !Less(s[i], s[0]);
    assert s[0] in t;
    LessTotal(s[0], t[0]);
  }

  lemma SortedKeysHead(keys: set<string>, k: string)
    requires keys != {} && SortedKeys(keys)[0] == k
    ensures SortedKeys(keys) == [k] + SortedKeys(keys - {k})
  {
  }

  /** The flags with their values, in the given order. */
  function Entries(keys: seq<string>, m: map<string, string>): (r: seq<(string, string)>)
    requires forall k :: k in keys ==> k in m
    ensures |r| == |keys| && forall i :: 0 <= i < |r| ==> r[i] == (keys[i], m[keys[i]])
  {
    seq(|keys|, i requires 0 <= i < |keys| => (keys[i], m[keys[i]]))
  }

  /** The list `flag, value, flag, value, ...`. */
  function Pairs(entries: seq<(string, string)>): seq<string> {
    if entries == [] then [] else [entries[0].0, entries[0].1] + Pairs(entries[1..])
  }

  lemma {:induction false} PairsAppend(a: seq<(string, string)>, b: seq<(string, string)>)
    ensures Pairs(a + b) == Pairs(a) + Pairs(b)
    decreases |a|
  {
    if a == [] {
      assert a + b == b;
    } else {
      assert (a + b)[1..] == a[1..] + b;
      PairsAppend(a[1..], b);
    }
  }

  /** What visiting every flag in order and appending flag and value yields. */
  ghost function Print(m: map<string, string>): seq<string> {
    Pairs(Entries(SortedKeys(m.Keys), m))
  }

  /** A value that may follow its flag as a separate argument. */
  predicate Plain(v: string) { v == "" || (v[0] != '-' && v[0] != '=') }

  predicate AllPlain(m: map<string, string>) { forall k :: k in m ==> Plain(m[k]) }

  /** Reading one printed pair. */
  lemma PairRead(flags: map<string, string>, k: string, v: string, tail: seq<string>)
    requires IsKey(k)
    ensures Run(flags, "", [k, v] + tail) ==
            if Plain(v) then Run(flags[k := v], "", tail)
            else Scan(flags[k := ""], [v] + tail, k, Rejected)
  {
    KeyIsFlagToken(k);
    var waiting := flags[k := ""];
    assert ([k, v] + tail)[1..] == [v] + tail && ([v] + tail)[1..] == tail;
    assert Run(flags, "", [k, v] + tail) == Run(waiting, k, [v] + tail);
    assert waiting[k := v] == flags[k := v];
    assert v == "" ==> waiting == flags[k := v];
  }

  /** The printed flags come in byte order: of two, the earlier one is a proper prefix of the
      later one, or has the smaller byte where they first differ. */
  lemma PrintedInByteOrder(m: map<string, string>, i: nat, j: nat)
    requires i < j < |SortedKeys(m.Keys)|
    ensures var a, b := SortedKeys(m.Keys)[i], SortedKeys(m.Keys)[j];
            exists k: nat :: k <= |a| && k <= |b| && a[..k] == b[..k]
                             && ((k == |a| && |a| < |b|) || (k < |a| && k < |b| && a[k] < b[k]))
    ensures |Print(m)| == 2 * |m|
    ensures Print(m)[2 * i] == SortedKeys(m.Keys)[i] && Print(m)[2 * i + 1] == m[SortedKeys(m.Keys)[i]]
  {
    var keys := SortedKeys(m.Keys);
    LessExactly(keys[i], keys[j]);
    PairsAt(Entries(keys, m), i);
  }

  lemma {:induction false} PairsAt(entries: seq<(string, string)>, i: nat)
    requires i < |entries|
    ensures |Pairs(entries)| == 2 * |entries|
    ensures Pairs(entries)[2 * i] == entries[i].0 && Pairs(entries)[2 * i + 1] == entries[i].1
    decreases |entries|
  {
    if |entries| > 1 {
      PairsAt(entries[1..], if i == 0 then 0 else i - 1);
    }
  }

  /** Two flags, printed: the lesser first. */
  lemma TwoInOrder(m: map<string, string>, k: string, l: string)
    requires m.Keys == {k, l} && Less(k, l)
    ensures Print(m) == [k, m[k], l, m[l]]
  {
    hide Less;
    LessIrreflexive(k);
    LessAsymmetric(k, l);
    var keys := [k, l];
    assert multiset(keys) == multiset(m.Keys);
    SortedIsUnique(keys, m.Keys);
    var entries := Entries(keys, m);
    assert entries == [(k, m[k]), (l, m[l])] && entries[1..] == [(l, m[l])] && entries[1..][1..] == [];
    assert Pairs(entries[1..]) == [l, m[l]] + Pairs(entries[1..][1..]);
    assert Print(m) == Pairs(entries) == [k, m[k]] + Pairs(entries[1..]);
  }

  lemma TwoPrinted()
    ensures Print(map["--b" := "1", "--a" := "2"]) == ["--a", "2", "--b", "1"]
  {
    assert "--a"[..2] == "--b"[..2];
    LessAt("--a", "--b", 2);
    TwoInOrder(map["--b" := "1", "--a" := "2"], "--a", "--b");
  }

  /** What a parser reads back from a printed map: every pair, or, if some value is
      not plain, the pairs before the first such flag and that flag without its value. */
  ghost function ReadBack(m: map<string, string>): map<string, string> {
    if AllPlain(m) then m
    else
      var bad := FirstBad(m);
      (map k | k in m && Less(k, bad) :: m[k])[bad := ""]
  }

  ghost function FirstBad(m: map<string, string>): (k: string)
    requires !AllPlain(m)
    ensures IsLeast(k, set x | x in m && !Plain(m[x]))
  {
    var bad := set x | x in m && !Plain(m[x]);
    assert bad != {} by { var k :| k in m && !Plain(m[k]); assert k in bad; }
    LeastWitness(bad)
  }

  /** The flags after reading some pairs. */
  function Put(flags: map<string, string>, entries: seq<(string, string)>): map<string, string>
    decreases |entries|
  {
    if entries == [] then flags else Put(flags[entries[0].0 := entries[0].1], entries[1..])
  }

  lemma {:induction false} PutEntries(flags: map<string, string>, keys: seq<string>, m: map<string, string>)
    requires forall k :: k in keys ==> k in m
    ensures var r := Put(flags, Entries(keys, m));
            && r.Keys == flags.Keys + (set k | k in keys)
            && (forall k :: k in keys ==> r[k] == m[k])
            && (forall k :: k in flags && k !in keys ==> r[k] == flags[k])
    decreases |keys|
  {
    if keys != [] {
      assert Entries(keys, m)[1..] == Entries(keys[1..], m);
      PutEntries(flags[keys[0] := m[keys[0]]], keys[1..], m);
      assert keys == [keys[0]] + keys[1..];
    }
  }

  /** Parsing pairs with plain values reads them all and goes on. */
  lemma {:induction false} RunPairs(flags: map<string, string>, entries: seq<(string, string)>, tail: seq<string>)
    requires forall e :: e in entries ==> IsKey(e.0) && Plain(e.1)
    ensures Run(flags, "", Pairs(entries) + tail) == Run(Put(flags, entries), "", tail)
    decreases |entries|
  {
    if entries == [] {
      assert Pairs(entries) + tail == tail;
    } else {
      var (k, v) := entries[0];
      var rest := Pairs(entries[1..]) + tail;
      assert entries[0] in entries;
      assert Pairs(entries) + tail == [k, v] + rest;
      PairRead(flags, k, v, rest);
      RunPairs(flags[k := v], entries[1..], tail);
    }
  }

  /** Round trip. For the flags of any argument list, re-parsing the sorted
      flag/value list succeeds exactly when no value starts with `-` or `=`,
      and then gives the same flags back; otherwise it reads back a prefix. */
  lemma RoundTrip(m: map<string, string>)
    requires Keyed(m)
    ensures Parse(Print(m)).Accepted() <==> AllPlain(m)
    ensures AllPlain(m) ==> Parse(Print(m)) == Scan(m, [], "", Exhausted)
    ensures !AllPlain(m) ==> Parse(Print(m)).status == Rejected
    ensures Parse(Print(m)).flags == ReadBack(m)
  {
    if AllPlain(m) { AllReadBack(m); } else { PrefixReadBack(m); }
  }

  lemma AllReadBack(m: map<string, string>)
    requires Keyed(m) && AllPlain(m)
    ensures Parse(Print(m)) == Scan(m, [], "", Exhausted)
  {
    ReadAll(m, SortedKeys(m.Keys));
  }

  lemma ReadAll(m: map<string, string>, keys: seq<string>)
    requires Keyed(m) && AllPlain(m) && forall k :: k in keys <==> k in m
    ensures Run(map[], "", Pairs(Entries(keys, m))) == Scan(m, [], "", Exhausted)
  {
    var entries := Entries(keys, m);
    assert forall e :: e in entries ==> e.0 in keys && e.1 == m[e.0];
    RunPairs(map[], entries, []);
    assert Pairs(entries) + [] == Pairs(entries);
    PutEntries(map[], keys, m);
    assert Put(map[], entries) == m;
  }

  lemma Below(keys: seq<string>, n: nat, k: string)
    requires StrictlySorted(keys) && n < |keys| && k in keys
    ensures k in keys[..n] <==> Less(k, keys[n])
  {
    var i :| 0 <= i < |keys| && keys[i] == k;
    LessIrreflexive(keys[n]);
    if i < n {
      assert keys[..n][i] == k && Less(keys[i], keys[n]);
    } else {
      if i > n { assert Less(keys[n], keys[i]); LessAsymmetric(keys[n], keys[i]); }
      assert !Less(k, keys[n]);
    }
  }

  /** The sorted flags split at the first one whose value is not plain. */
  lemma SplitAtBad(m: map<string, string>, keys: seq<string>, bad: string) returns (before: seq<string>, after: seq<string>)
    requires StrictlySorted(keys) && forall k :: k in keys <==> k in m
    requires IsLeast(bad, set x | x in m && !Plain(m[x]))
    ensures keys == before + [bad] + after
    ensures forall k :: k in before <==> k in m && Less(k, bad)
    ensures forall k :: k in before ==> Plain(m[k])
  {
    assert bad in (set x | x in m && !Plain(m[x])) && bad in keys;
    var n :| 0 <= n < |keys| && keys[n] == bad;
    before, after := keys[..n], keys[n + 1..];
    forall k | k in m ensures k in before <==> Less(k, bad) {
      Below(keys, n, k);
    }
    forall k | k in before ensures k in m { assert k in keys; }
  }

  lemma PrefixReadBack(m: map<string, string>)
    requires Keyed(m) && !AllPlain(m)
    ensures Parse(Print(m)).status == Rejected && Parse(Print(m)).flags == ReadBack(m)
  {
    var keys := SortedKeys(m.Keys);
    assert forall k :: k in keys <==> k in m;
    ReadToBad(m, keys, FirstBad(m));
  }

  lemma ReadToBad(m: map<string, string>, keys: seq<string>, bad: string)
    requires Keyed(m) && StrictlySorted(keys) && forall k :: k in keys <==> k in m
    requires IsLeast(bad, set x | x in m && !Plain(m[x]))
    ensures var r := Run(map[], "", Pairs(Entries(keys, m)));
            r.status == Rejected && r.flags == (map k | k in m && Less(k, bad) :: m[k])[bad := ""]
  {
    var before, after := SplitAtBad(m, keys, bad);
    assert bad in (set x | x in m && !Plain(m[x]));
    RunToBad(m, keys, before, bad, after);
  }

  lemma RunToBad(m: map<string, string>, keys: seq<string>, before: seq<string>, bad: string, after: seq<string>)
    requires Keyed(m) && (forall k :: k in keys ==> k in m) && keys == before + [bad] + after
    requires forall k :: k in before <==> k in m && Less(k, bad)
    requires bad in m && !Plain(m[bad]) && forall k :: k in before ==> Plain(m[k])
    ensures var r := Run(map[], "", Pairs(Entries(keys, m)));
            r.status == Rejected && r.flags == (map k | k in m && Less(k, bad) :: m[k])[bad := ""]
  {
    EntriesSplit(m, keys, before, bad, after);
    var first, rest := Entries(before, m), Entries(after, m);
    assert forall e :: e in first ==> e.0 in before && e.1 == m[e.0];
    PairsToBad(first, bad, m[bad], rest);
    PutBelow(m, before, bad);
  }

  lemma EntriesSplit(m: map<string, string>, keys: seq<string>, before: seq<string>, bad: string, after: seq<string>)
    requires (forall k :: k in keys ==> k in m) && keys == before + [bad] + after
    ensures bad in keys && (forall k :: k in before || k in after ==> k in keys)
    ensures Entries(keys, m) == Entries(before, m) + ([(bad, m[bad])] + Entries(after, m))
  {
  }

  lemma PutBelow(m: map<string, string>, before: seq<string>, bad: string)
    requires forall k :: k in before <==> k in m && Less(k, bad)
    ensures Put(map[], Entries(before, m)) == map k | k in m && Less(k, bad) :: m[k]
  {
    PutEntries(map[], before, m);
  }

  lemma PairsToBad(first: seq<(string, string)>, k: string, v: string, rest: seq<(string, string)>)
    requires forall e :: e in first ==> IsKey(e.0) && Plain(e.1)
    requires IsKey(k) && !Plain(v)
    ensures var r := Run(map[], "", Pairs(first + ([(k, v)] + rest)));
            r.status == Rejected && r.flags == Put(map[], first)[k := ""]
  {
    PairsAppend(first, [(k, v)] + rest);
    assert ([(k, v)] + rest)[1..] == rest;
    RunPairs(map[], first, [k, v] + Pairs(rest));
    PairRead(Put(map[], first), k, v, Pairs(rest));
  }

  lemma RoundTripOfParsed(args: seq<string>)
    ensures var m := Parse(args).flags;
            && (Parse(Print(m)).Accepted() <==> AllPlain(m))
            && (AllPlain(m) ==> Parse(Print(m)).flags == m)
            && Parse(Print(m)).flags == ReadBack(m)
  {
    ParseShape(args);
    RoundTrip(Parse(args).flags);
  }

  lemma DashAssigned()
    ensures Parse(["--x=-1"]).flags == map["--x" := "-1"] && IsKey("--x")
  {
    var s := "--x=-1";
    assert EqualsAt(s, 3) == 3;
    assert Classify(s) == Assign("--x", "-1") by { assert s[..3] == "--x" && s[4..] == "-1"; }
  }

  /** A `--x=-1` value does not survive printing and re-parsing. */
  lemma AssignedDashIsLost()
    ensures Parse(["--x=-1"]).flags == map["--x" := "-1"]
    ensures Parse(Print(map["--x" := "-1"])).flags == map["--x" := ""]
  {
    DashAssigned();
    var m := map["--x" := "-1"];
    assert !Plain(m["--x"]);
    RoundTrip(m);
    assert FirstBad(m) == "--x";
    LessIrreflexive("--x");
    assert ReadBack(m) == map["--x" := ""];
  }

  // ---------- the parser as the program runs it ----------

  datatype Outcome = Seen | Finished(status: Status)

  class FlagSet {
    var actual: map<string, string>
    var args: seq<string>   // arguments not yet read
    var lastName: string

    constructor ()
      ensures actual == map[] && args == [] && lastName == ""
    {
      actual, args, lastName := map[], [], "";
    }

    /** One flag or value. The scan from the old fields is the scan from the
        new ones, or has ended in the new ones. */
    method ParseOne() returns (o: Outcome)
      modifies this
      ensures o.Seen? ==>
                |args| < |old(args)| && Run(actual, lastName, args) == old(Run(actual, lastName, args))
      ensures o.Finished? ==> old(Run(actual, lastName, args)) == Scan(actual, args, lastName, o.status)
    {
      if |args| == 0 {
        return Finished(Exhausted);
      }
      var s := args[0];
      if |s| != 0 {
        if s[0] == '-' {
          if lastName != "" {
            return Finished(Rejected);
          }
          var numMinuses := 1;
          if |s| == 1 {
            return Finished(Panicked); // s[1] is out of range
          }
          if s[1] == '-' {
            numMinuses := numMinuses + 1;
            if |s| == 2 {
              args := args[1..];
              return Finished(Terminated);
            }
          }
          var name := s[numMinuses..];
          if |name| == 0 || name[0] == '-' || name[0] == '=' {
            return Finished(Rejected);
          }
          var value, hasValue;
          name, value, hasValue := SplitFlag(s, numMinuses);
          assert numMinuses == Minuses(s);
          if hasValue {
            assert Classify(s) == Assign(name, value);
            actual := actual[name := value];
          } else {
            assert Classify(s) == Flag(s) && name == s;
            actual, lastName := actual[name := ""], name;
          }
        } else {
          if lastName == "" {
            return Finished(Rejected);
          }
          if s[0] == '-' || s[0] == '=' {
            return Finished(Rejected);
          }
          actual, lastName := actual[lastName := s], "";
        }
      } else {
        lastName := "";
      }
      args := args[1..];
      return Seen;
    }

    /** Parses all arguments, keeping what the parser already holds. */
    method Parse(arguments: seq<string>) returns (status: Status)
      modifies this
      ensures Scan(actual, args, lastName, status) == Run(old(actual), old(lastName), arguments)
    {
      args := arguments;
      while true
        invariant Run(actual, lastName, args) == Run(old(actual), old(lastName), arguments)
        decreases |args|
      {
        var o := ParseOne();
        if o.Finished? {
          return o.status;
        }
      }
    }

    /** The flags in lexicographical order, each with its value: what the visitor is called with. */
    method Visit() returns (visited: seq<(string, string)>)
      ensures visited == Entries(SortedKeys(actual.Keys), actual)
    {
      hide SortedKeys, StrictlySorted;
      var keys := SortFlags(actual);
      ghost var entries := Entries(keys[..], actual);
      visited := [];
      for i := 0 to keys.Length
        invariant visited == entries[..i]
      {
        assert keys[..][i] == keys[i] && keys[i] in keys[..];
        visited := visited + [(keys[i], actual[keys[i]])];
      }
    }
  }

  /** The loop that looks for `=` after a flag's dashes: the flag with its dashes, and the value after `=`. */
  method SplitFlag(s: string, numMinuses: nat) returns (flag: string, value: string, hasValue: bool)
    requires 1 <= numMinuses < |s|
    ensures var k := EqualsAt(s, numMinuses + 1);
            hasValue == (k < |s|) && flag == s[..k] && (hasValue ==> value == s[k + 1..])
  {
    var name := s[numMinuses..];
    hasValue, value := false, "";
    ghost var whole := name;
    var i := 1;
    while i < |name| && !hasValue
      invariant 1 <= i <= |name| && i <= |whole|
      invariant name == (if hasValue then whole[..i] else whole)
      invariant forall j :: 1 <= j < i ==> whole[j] != '='
      invariant hasValue ==> i < |whole| && whole[i] == '=' && value == whole[i + 1..]
      decreases |whole| - i, !hasValue
    {
      if name[i] == '=' {
        value, hasValue, name := name[i + 1..], true, name[..i];
      } else {
        i := i + 1;
      }
    }
    EqualsFound(s, numMinuses, i);
    flag := s[..numMinuses + |name|];
  }

  lemma EqualsFound(s: string, m: nat, i: nat)
    requires 1 <= m && m < |s| && 1 <= i <= |s| - m
    requires forall j :: 1 <= j < i ==> s[m..][j] != '='
    requires i < |s| - m ==> s[m..][i] == '='
    ensures EqualsAt(s, m + 1) == m + i
  {
    forall j | m + 1 <= j < m + i ensures s[j] != '=' {
      assert s[j] == s[m..][j - m];
    }
    assert i < |s| - m ==> s[m + i] == s[m..][i];
  }

  /** Fills a slice with the flags in whatever order the map yields them, then
      sorts it; every map order gives the same slice. */
  method SortFlags(flags: map<string, string>) returns (result: array<string>)
    ensures fresh(result) && result[..] == SortedKeys(flags.Keys)
  {
    hide Less, Sorted, SortedKeys, StrictlySorted;
    result := new string[|flags|];
    var i, todo := 0, flags.Keys;
    while todo != {}
      invariant todo <= flags.Keys && i + |todo| == |flags|
      invariant multiset(result[..i]) == multiset(flags.Keys - todo)
      decreases todo
    {
      var name :| name in todo;
      result[i] := name;
      assert result[..i + 1] == result[..i] + [name];
      assert flags.Keys - (todo - {name}) == (flags.Keys - todo) + {name};
      i, todo := i + 1, todo - {name};
    }
    assert result[..i] == result[..] && flags.Keys - todo == flags.Keys;
    InsertionSort(result);
    SortedIsUnique(result[..], flags.Keys);
  }

  /** The stable in-place sort the library call performs. */
  method InsertionSort(a: array<string>)
    modifies a
    ensures Sorted(a[..]) && multiset(a[..]) == old(multiset(a[..]))
  {
    hide Less;
    var n := 0;
    while n < a.Length
      invariant 0 <= n <= a.Length
      invariant Sorted(a[..n])
      invariant multiset(a[..]) == old(multiset(a[..]))
    {
      SinkLast(a, n);
      n := n + 1;
    }
    assert a[..n] == a[..];
  }

  /** Moves element `n` down into the sorted prefix before it. */
  method SinkLast(a: array<string>, n: nat)
    requires n < a.Length && Sorted(a[..n])
    modifies a
    ensures Sorted(a[..n + 1]) && multiset(a[..]) == old(multiset(a[..]))
  {
    hide Less;
    var j := n;
    while j > 0 && Less(a[j], a[j - 1])
      invariant 0 <= j <= n
      invariant multiset(a[..]) == old(multiset(a[..]))
      invariant SortedBut(a[..], j, n)
    {
      ghost var s := a[..];
      SinkStep(s, j, n);
      a[j], a[j - 1] := a[j - 1], a[j];
      assert a[..] == s[j := s[j - 1]][j - 1 := s[j]];
      j := j - 1;
    }
    SunkIsSorted(a[..], j, n);
  }

  /** Up to `n`, only the element at `j` may be too far right. */
  ghost predicate SortedBut(s: seq<string>, j: nat, n: nat)
    requires j <= n < |s|
  {
    forall p, q :: 0 <= p < q <= n && q != j ==> !Less(s[q], s[p])
  }

  lemma SunkIsSorted(s: seq<string>, j: nat, n: nat)
    requires j <= n < |s| && SortedBut(s, j, n) && (j > 0 ==> !Less(s[j], s[j - 1]))
    ensures Sorted(s[..n + 1])
  {
    forall p | 0 <= p < j ensures !Less(s[j], s[p]) {
      if p < j - 1 { NotLessTransitive(s[p], s[j - 1], s[j]); }
    }
  }

  lemma SinkStep(s: seq<string>, j: nat, n: nat)
    requires 0 < j <= n < |s| && Less(s[j], s[j - 1])
    requires SortedBut(s, j, n)
    ensures SortedBut(s[j := s[j - 1]][j - 1 := s[j]], j - 1, n)
  {
    var t := s[j := s[j - 1]][j - 1 := s[j]];
    forall p, q | 0 <= p < q <= n && q != j - 1 ensures !Less(t[q], t[p]) {
      LessAsymmetric(s[j], s[j - 1]);
      if q > j && p == j - 1 {
        assert !Less(s[q], s[j - 1]);
        NotLessTransitive(s[j], s[j - 1], s[q]);
      }
    }
  }
}
