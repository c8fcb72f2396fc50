/** The HMeta address, computed twice: by internal/controller/utils.go for HServer and
    by internal/utils/hmeta.go, over the second parser pkg/args/parse.go, for LogDevice. */
module HMeta {
  import opened Text
  import opened Flags
  import opened Ports

  // ---------- the second parser ----------

  function Read(argsMap: map<string, string>, currentKey: string, args: seq<string>): map<string, string>
    decreases |args|
  {
    if args == [] then argsMap
    else if Dashed(args[0]) then Read(argsMap[args[0] := ""], args[0], args[1..])
    else if currentKey != "" then Read(argsMap[currentKey := args[0]], "", args[1..])
    else Read(argsMap, currentKey, args[1..])
  }

  method ParseArgs(args: seq<string>) returns (argsMap: map<string, string>)
    ensures argsMap == Read(map[], "", args)
  {
    argsMap := map[];
    var currentKey := "";
    for i := 0 to |args|
      invariant Read(argsMap, currentKey, args[i..]) == Read(map[], "", args)
    {
      var arg := args[i];
      assert args[i..][0] == arg && args[i..][1..] == args[i + 1..];
      if Dashed(arg) {
        currentKey := arg;
        argsMap := argsMap[currentKey := ""];
      } else if currentKey != "" {
        argsMap := argsMap[currentKey := arg];
        currentKey := "";
      }
    }
  }

  /** A flag token both parsers read as a bare flag. */
  predicate PlainFlag(t: string) { Dashed(t) ==> t != "--" && '=' !in t }

  lemma {:induction false} SameReading(flags: map<string, string>, last: string, args: seq<string>)
    requires Run(flags, last, args).Accepted()
    requires forall t :: t in args ==> PlainFlag(t)
    requires last != "" ==> last in flags && flags[last] == ""
    ensures Read(flags, last, args) == Run(flags, last, args).flags
    decreases |args|
  {
    if args != [] {
      var s := args[0];
      ClassifyGivesKeys(s);
      assert PlainFlag(s);
      match Classify(s)
      case Blank =>
        assert last != "" ==> flags[last := ""] == flags;
        SameReading(flags, "", args[1..]);
      case Flag(k) => SameReading(flags[k := ""], k, args[1..]);
      case Word(w) => SameReading(flags[last := w], "", args[1..]);
      case _ =>
    }
  }

  /** The second parser never forgets a dashed token. */
  lemma {:induction false} ReadKeeps(argsMap: map<string, string>, key: string, args: seq<string>, t: string)
    requires t in argsMap || (t in args && Dashed(t))
    ensures t in Read(argsMap, key, args)
    decreases |args|
  {
    if args != [] {
      if Dashed(args[0]) {
        ReadKeeps(argsMap[args[0] := ""], args[0], args[1..], t);
      } else if key != "" {
        ReadKeeps(argsMap[key := args[0]], "", args[1..], t);
      } else {
        ReadKeeps(argsMap, key, args[1..], t);
      }
    }
  }

  /** Two parsers, one meaning: on a list the first parser accepts, the second
      reads the same flags exactly when no flag token is `--` or carries `=`. */
  lemma ParsersAgree(args: seq<string>)
    requires Parse(args).Accepted()
    ensures Read(map[], "", args) == Parse(args).flags <==> forall t :: t in args ==> PlainFlag(t)
  {
    if forall t :: t in args ==> PlainFlag(t) {
      SameReading(map[], "", args);
    } else {
      var t :| t in args && !PlainFlag(t);
      ReadKeeps(map[], "", args, t);
      RunShape(map[], "", args);
      assert !IsKey(t);
    }
  }

  // ---------- the port ----------

  const DefaultHMetaPort := Port("rqlite", 4001, "TCP")

  /** The port after the `:` of `--http-addr`, if that has exactly one. */
  function HttpAddrPort(flags: map<string, string>): Option<string> {
    if "--http-addr" in flags && |Split(flags["--http-addr"], ':')| == 2
    then Some(Split(flags["--http-addr"], ':')[1])
    else None
  }

  function HMetaPortOf(flags: map<string, string>): Port {
    match HttpAddrPort(flags)
    case Some(p) => Port("port", IntVal(p), "TCP")
    case None => DefaultHMetaPort
  }

  /** `parseHMetaPort`; with an error its caller may still use the default port. */
  function ParseHMetaPort(args: seq<string>): Result<Port> {
    match Parse(args).status
    case Panicked => Panic
    case Rejected => Err
    case _ => Ok(HMetaPortOf(Parse(args).flags))
  }

  /** `getHMetaContainerPort` of internal/utils/hmeta.go, which reads with the second parser. */
  function ContainerPortNumber(args: seq<string>): int {
    HMetaPortOf(Read(map[], "", args)).containerPort
  }

  // ---------- the address ----------

  datatype Instance = Instance(name: string, namespace: string)
  datatype ExternalHMeta = ExternalHMeta(host: string, port: int, namespace: string) {
    function Addr(): string {
      (if namespace != "" then host + "." + namespace else host) + ":" + Itoa(port)
    }
  }

  /** The headless service of a component. */
  function HeadlessName(hdb: Instance, component: string): string {
    hdb.name + "-internal-" + component
  }

  function InternalAddr(hdb: Instance, port: int): string {
    HeadlessName(hdb, "hmeta") + "." + hdb.namespace + ":" + Itoa(port)
  }

  /** `getHMetaAddr`, for HServer's `--metastore-uri`. */
  function HServerView(hdb: Instance, external: Option<ExternalHMeta>, args: seq<string>): Result<string> {
    match external
    case Some(e) => Ok(e.Addr())
    case None =>
      match ParseHMetaPort(args)
      case Ok(p) => Ok(InternalAddr(hdb, p.containerPort))
      case Err => Err
      case Panic => Panic
  }

  /** `utils.GetHMetaAddr`, for the LogDevice config. */
  function LogDeviceView(hdb: Instance, external: Option<ExternalHMeta>, args: seq<string>): string {
    match external
    case Some(e) => e.Addr()
    case None => InternalAddr(hdb, ContainerPortNumber(args))
  }

  /** The addresses written out. */
  lemma AddressesSay(hdb: Instance, host: string, port: int, namespace: string)
    ensures ExternalHMeta(host, port, "").Addr() == host + ":" + Itoa(port)
    ensures namespace != "" ==> ExternalHMeta(host, port, namespace).Addr() == host + "." + namespace + ":" + Itoa(port)
    ensures InternalAddr(hdb, port) == hdb.name + "-internal-hmeta" + "." + hdb.namespace + ":" + Itoa(port)
  {
    assert "-internal-" + "hmeta" == "-internal-hmeta";
  }

  /** The port HMeta listens on, written out: the address must have exactly one colon. */
  lemma HMetaPortSays(flags: map<string, string>, host: string, port: string, more: string)
    requires ':' !in host && ':' !in port
    ensures "--http-addr" !in flags ==> HMetaPortOf(flags) == Port("rqlite", 4001, "TCP")
    ensures "--http-addr" in flags && flags["--http-addr"] == host ==> HMetaPortOf(flags) == Port("rqlite", 4001, "TCP")
    ensures "--http-addr" in flags && flags["--http-addr"] == host + ":" + port ==> HMetaPortOf(flags) == Port("port", IntVal(port), "TCP")
    ensures "--http-addr" in flags && flags["--http-addr"] == host + ":" + (port + ":" + more) ==> HMetaPortOf(flags) == Port("rqlite", 4001, "TCP")
  {
    hide Split, IntVal;
    SplitNone(host, ':');
    SplitOne(host, port, ':');
    SplitFirst(host, port + ":" + more, ':');
    SplitFirst(port, more, ':');
  }

  // ---------- when the two addresses agree ----------

  /** What a bare flag takes as its value: the next token, unless that is dashed. */
  function ValueAfter(rest: seq<string>): string {
    if rest == [] || Dashed(rest[0]) then "" else rest[0]
  }

  /** The last setting of a flag before any `--`, as `flag value` or as `flag=value`. */
  function LastSetting(flag: string, args: seq<string>): Option<string> {
    if args == [] || args[0] == "--" then None
    else
      match LastSetting(flag, args[1..])
      case Some(v) => Some(v)
      case None =>
        if args[0] == flag then Some(ValueAfter(args[1..]))
        else if flag + "=" <= args[0] then Some(args[0][|flag| + 1..])
        else None
  }

  /** The last setting of a flag as `flag value`, anywhere. */
  function LastBare(flag: string, args: seq<string>): Option<string> {
    if args == [] then None
    else
      match LastBare(flag, args[1..])
      case Some(v) => Some(v)
      case None => if args[0] == flag then Some(ValueAfter(args[1..])) else None
  }

  function Lookup(flags: map<string, string>, flag: string): Option<string> {
    if flag in flags then Some(flags[flag]) else None
  }

  /** A token assigns to a flag exactly when it starts with the flag and `=`. */
  lemma AssignsTo(s: string, flag: string)
    requires IsKey(flag)
    ensures flag + "=" <= s <==> Classify(s).Assign? && Classify(s).key == flag
    ensures flag + "=" <= s ==> Classify(s).value == s[|flag| + 1..]
  {
    ClassifyGivesKeys(s);
    if flag + "=" <= s {
      assert s == flag + "=" + s[|flag| + 1..];
      AssignToken(flag, s[|flag| + 1..]);
    }
  }

  /** The first parser leaves a flag at its last setting, or at the value it was waiting for. */
  lemma {:induction false} RunSetting(flags: map<string, string>, last: string, args: seq<string>, flag: string)
    requires Run(flags, last, args).Accepted() && IsKey(flag)
    requires last != "" ==> last in flags && flags[last] == ""
    ensures Lookup(Run(flags, last, args).flags, flag) ==
            match LastSetting(flag, args)
            case Some(v) => Some(v)
            case None => if last == flag then Some(ValueAfter(args)) else Lookup(flags, flag)
    decreases |args|
  {
    if args != [] {
      var s := args[0];
      KeyIsFlagToken(flag);
      AssignsTo(s, flag);
      ClassifyGivesKeys(s);
      match Classify(s)
      case Blank => RunSetting(flags, "", args[1..], flag);
      case Flag(k) => RunSetting(flags[k := ""], k, args[1..], flag);
      case Assign(k, v) => RunSetting(flags[k := v], last, args[1..], flag);
      case Word(w) => RunSetting(flags[last := w], "", args[1..], flag);
      case _ =>
    }
  }

  /** The second parser leaves a flag at its last bare setting, on every list. */
  lemma {:induction false} ReadSetting(argsMap: map<string, string>, key: string, args: seq<string>, flag: string)
    requires Dashed(flag) && (key != "" ==> key in argsMap && argsMap[key] == "")
    ensures Lookup(Read(argsMap, key, args), flag) ==
            match LastBare(flag, args)
            case Some(v) => Some(v)
            case None => if key == flag then Some(ValueAfter(args)) else Lookup(argsMap, flag)
    decreases |args|
  {
    if args != [] {
      if Dashed(args[0]) {
        ReadSetting(argsMap[args[0] := ""], args[0], args[1..], flag);
      } else if key != "" {
        ReadSetting(argsMap[key := args[0]], "", args[1..], flag);
      } else {
        ReadSetting(argsMap, key, args[1..], flag);
      }
    }
  }

  /** The port number an `--http-addr` setting stands for. */
  function PortTold(setting: Option<string>): int {
    match setting
    case Some(v) => if |Split(v, ':')| == 2 then IntVal(Split(v, ':')[1]) else DefaultHMetaPort.containerPort
    case None => DefaultHMetaPort.containerPort
  }

  /** HServer and LogDevice are given the same HMeta address exactly when HMeta is
      external, or the arguments are accepted and the last `--http-addr` before any
      `--`, bare or assigned, names the same port as the last bare one anywhere. */
  lemma AddressesAgree(hdb: Instance, external: Option<ExternalHMeta>, args: seq<string>)
    ensures HServerView(hdb, external, args) == Ok(LogDeviceView(hdb, external, args))
            <==> || external.Some?
                 || (Parse(args).Accepted()
                     && PortTold(LastSetting("--http-addr", args)) == PortTold(LastBare("--http-addr", args)))
  {
    if external.None? && Parse(args).Accepted() {
      RunSetting(map[], "", args, "--http-addr");
      ReadSetting(map[], "", args, "--http-addr");
      SameAddress(hdb, HMetaPortOf(Parse(args).flags).containerPort, ContainerPortNumber(args));
    }
  }

  /** One address says one port. */
  lemma SameAddress(hdb: Instance, a: int, b: int)
    ensures InternalAddr(hdb, a) == InternalAddr(hdb, b) <==> a == b
  {
    var prefix := HeadlessName(hdb, "hmeta") + "." + hdb.namespace + ":";
    assert InternalAddr(hdb, a)[|prefix|..] == Itoa(a) && InternalAddr(hdb, b)[|prefix|..] == Itoa(b);
    if Itoa(a) == Itoa(b) { ItoaInjective(a, b); }
  }

  /** With plain flag tokens only they agree. */
  lemma PlainAddressesAgree(hdb: Instance, args: seq<string>)
    requires Parse(args).Accepted() && forall t :: t in args ==> PlainFlag(t)
    ensures HServerView(hdb, None, args) == Ok(LogDeviceView(hdb, None, args))
  {
    ParsersAgree(args);
  }

  /** An address after `--` reaches LogDevice only. */
  lemma TerminatedAddressDisagrees(hdb: Instance)
    ensures var args := ["--", "--http-addr", "h:5"];
            && Parse(args).Accepted() && (forall t :: t in args ==> '=' !in t)
            && HServerView(hdb, None, args) == Ok(InternalAddr(hdb, 4001))
            && LogDeviceView(hdb, None, args) == InternalAddr(hdb, 5)
            && HServerView(hdb, None, args) != Ok(LogDeviceView(hdb, None, args))
  {
    var args := ["--", "--http-addr", "h:5"];
    assert Parse(args) == Scan(map[], args[1..], "", Terminated);
    assert args[1..] == ["--http-addr", "h:5"] && args[1..][1..] == ["h:5"] && args[1..][1..][1..] == [];
    ReadSetting(map[], "", args, "--http-addr");
    assert LastBare("--http-addr", args[1..][1..]) == None;
    assert LastBare("--http-addr", args[1..]) == Some("h:5");
    SplitOne("h", "5", ':');
    assert "h" + [':'] + "5" == "h:5";
    DigitsDenote(5);
    AtoiItoa(5);
    assert Itoa(5) == "5";
    SameAddress(hdb, 4001, 5);
  }

  /** A mixed list they read differently. */
  lemma MixedAddressesDisagree(hdb: Instance)
    ensures var args := ["--http-addr", "a:1", "--http-addr=b:2"];
            && HServerView(hdb, None, args) == Ok(InternalAddr(hdb, 2))
            && LogDeviceView(hdb, None, args) == InternalAddr(hdb, 1)
  {
    hide LastSetting, LastBare, Run, Read, Split, Itoa, IntVal;
    var args := ["--http-addr", "a:1", "--http-addr=b:2"];
    MixedAccepted();
    FirstView();
    SecondView();
    assert IsKey("--http-addr");
    RunSetting(map[], "", args, "--http-addr");
    ReadSetting(map[], "", args, "--http-addr");
    OneDigitPorts();
  }

  lemma OneDigitPorts()
    ensures PortTold(Some("a:1")) == 1 && PortTold(Some("b:2")) == 2
  {
    SplitOne("a", "1", ':');
    SplitOne("b", "2", ':');
    assert "a" + [':'] + "1" == "a:1" && "b" + [':'] + "2" == "b:2";
    AtoiItoa(1);
    AtoiItoa(2);
    assert Itoa(1) == "1" && Itoa(2) == "2";
  }

  lemma SecondView()
    ensures LastBare("--http-addr", ["--http-addr", "a:1", "--http-addr=b:2"]) == Some("a:1")
  {
    var flag, args := "--http-addr", ["--http-addr", "a:1", "--http-addr=b:2"];
    assert args[1..] == ["a:1", "--http-addr=b:2"] && args[1..][1..] == ["--http-addr=b:2"] && args[1..][1..][1..] == [];
    assert LastBare(flag, args[1..][1..]) == None;
    assert LastBare(flag, args[1..]) == None;
  }

  lemma FirstView()
    ensures LastSetting("--http-addr", ["--http-addr", "a:1", "--http-addr=b:2"]) == Some("b:2")
  {
    var flag, args := "--http-addr", ["--http-addr", "a:1", "--http-addr=b:2"];
    assert args[1..] == ["a:1", "--http-addr=b:2"] && args[1..][1..] == ["--http-addr=b:2"] && args[1..][1..][1..] == [];
    assert flag + "=" + "b:2" == "--http-addr=b:2";
    assert LastSetting(flag, args[1..][1..]) == Some("b:2") by { assert "--http-addr=b:2"[|flag| + 1..] == "b:2"; }
    assert LastSetting(flag, args[1..]) == Some("b:2");
  }

  lemma MixedAccepted()
    ensures Parse(["--http-addr", "a:1", "--http-addr=b:2"]).Accepted()
  {
    var flag, args := "--http-addr", ["--http-addr", "a:1", "--http-addr=b:2"];
    assert args[1..] == ["a:1", "--http-addr=b:2"] && args[1..][1..] == ["--http-addr=b:2"] && args[1..][1..][1..] == [];
    assert IsKey(flag);
    AssignToken(flag, "b:2");
    assert flag + "=" + "b:2" == "--http-addr=b:2";
    KeyIsFlagToken(flag);
    var f1 := map[][flag := ""];
    var f2 := f1[flag := "a:1"];
    assert Run(map[], "", args) == Run(f1, flag, args[1..]);
    assert Run(f1, flag, args[1..]) == Run(f2, "", args[1..][1..]);
    assert Run(f2, "", args[1..][1..]) == Run(f2[flag := "b:2"], "", args[1..][1..][1..]);
  }

  /** A list with `=` they agree on. */
  lemma OtherAssignmentAgrees(hdb: Instance)
    ensures Parse(["--x=1"]).Accepted() && !PlainFlag("--x=1")
    ensures HServerView(hdb, None, ["--x=1"]) == Ok(LogDeviceView(hdb, None, ["--x=1"]))
  {
    var other := ["--x=1"];
    AssignToken("--x", "1");
    assert "--x" + "=" + "1" == "--x=1" && "--x=1"[3] == '=' && other[1..] == [];
    assert Parse(other) == Run(map[]["--x" := "1"], "", other[1..]);
    assert Read(map[], "", other) == map["--x=1" := ""];
  }

  lemma {:induction false} SplitNone(s: string, sep: char)
    requires sep !in s
    ensures Split(s, sep) == [s]
  {
    if s != "" {
      SplitNone(s[1..], sep);
      assert [s[0]] + s[1..] == s;
    }
  }

  lemma {:induction false} SplitFirst(a: string, b: string, sep: char)
    requires sep !in a
    ensures Split(a + [sep] + b, sep) == [a] + Split(b, sep)
  {
    var s := a + [sep] + b;
    if a == "" {
      assert s[1..] == b;
    } else {
      assert s[1..] == a[1..] + [sep] + b;
      SplitFirst(a[1..], b, sep);
      assert [a[0]] + a[1..] == a;
    }
  }

  lemma SplitOne(a: string, b: string, sep: char)
    requires sep !in a && sep !in b
    ensures Split(a + [sep] + b, sep) == [a, b]
  {
    SplitFirst(a, b, sep);
    SplitNone(b, sep);
  }

  lemma AssignToken(key: string, value: string)
    requires IsKey(key)
    ensures Classify(key + "=" + value) == Assign(key, value)
  {
    var s := key + "=" + value;
    var m := Minuses(s);
    assert m == Minuses(key) && s[m] == key[m];
    assert forall j :: 0 <= j < |key| ==> s[j] == key[j];
    assert s[|key|] == '=' && EqualsAt(s, m + 1) == |key|;
    assert s[..|key|] == key && s[|key| + 1..] == value;
  }

  /** The family where they differ: one `--http-addr=host:port` argument. HServer
      gets the port, the LogDevice config gets the default. */
  lemma AssignedAddressDisagrees(hdb: Instance, host: string, port: string)
    requires ':' !in host && ':' !in port && IntVal(port) != DefaultHMetaPort.containerPort
    ensures var args := ["--http-addr=" + host + ":" + port];
            && Parse(args).Accepted()
            && HServerView(hdb, None, args) == Ok(InternalAddr(hdb, IntVal(port)))
            && LogDeviceView(hdb, None, args) == InternalAddr(hdb, DefaultHMetaPort.containerPort)
            && HServerView(hdb, None, args) != Ok(LogDeviceView(hdb, None, args))
  {
    var value := host + ":" + port;
    var arg := "--http-addr" + "=" + value;
    assert arg == "--http-addr=" + host + ":" + port;
    var args := [arg];
    assert args[1..] == [];
    AssignToken("--http-addr", value);
    assert Classify(args[0]) == Assign("--http-addr", value);
    var flags := map[]["--http-addr" := value];
    assert Parse(args) == Run(flags, "", args[1..]);
    assert Dashed(arg);
    SplitOne(host, port, ':');
    assert Read(map[], "", args) == map[arg := ""];
    assert arg != "--http-addr";
    var a, b := InternalAddr(hdb, IntVal(port)), InternalAddr(hdb, 4001);
    if a == b {
      var prefix := HeadlessName(hdb, "hmeta") + "." + hdb.namespace + ":";
      assert a[|prefix|..] == Itoa(IntVal(port)) && b[|prefix|..] == Itoa(4001);
      ItoaInjective(IntVal(port), 4001);
    }
  }
}
