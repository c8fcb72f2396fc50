/** The port functions of internal/controller/utils.go and the Service conversion
    of internal/controller/add_services.go. */
module Ports {
  import opened Text
  import opened Flags

  datatype Port = Port(name: string, containerPort: int, protocol: string)
  datatype ServicePort = ServicePort(name: string, protocol: string, port: int)

  predicate Named(ports: seq<Port>, name: string) {
    exists j :: 0 <= j < |ports| && ports[j].name == name
  }

  /** An unnamed port gets a name made from its number. */
  function WithName(p: Port): Port {
    if p.name == "" then p.(name := "unset-" + Itoa(p.containerPort)) else p
  }

  /** The ports, then each external port whose name is still free. */
  function ExtendWith(ports: seq<Port>, external: seq<Port>): seq<Port>
    decreases |external|
  {
    if external == [] then ports
    else if Named(ports, external[0].name) then ExtendWith(ports, external[1..])
    else ExtendWith(ports + [WithName(external[0])], external[1..])
  }

  /** `extendPorts`. It names unnamed external ports in place. */
  method ExtendPorts(ports: seq<Port>, externalPorts: array<Port>) returns (r: seq<Port>)
    modifies externalPorts
    ensures r == ExtendWith(ports, old(externalPorts[..]))
    ensures forall i :: 0 <= i < externalPorts.Length ==>
              || externalPorts[i] == old(externalPorts[i])
              || (old(externalPorts[i]).name == "" && externalPorts[i] == WithName(old(externalPorts[i])))
  {
    r := ports;
    ghost var external := externalPorts[..];
    for i := 0 to externalPorts.Length
      invariant forall j :: i <= j < externalPorts.Length ==> externalPorts[j] == external[j]
      invariant forall j :: 0 <= j < i ==>
                  externalPorts[j] == external[j] || (external[j].name == "" && externalPorts[j] == WithName(external[j]))
      invariant ExtendWith(r, external[i..]) == ExtendWith(ports, external)
    {
      var found, j := false, 0;
      while j < |r| && !found
        invariant 0 <= j <= |r| && (found ==> Named(r, external[i].name))
        invariant !found ==> forall k :: 0 <= k < j ==> r[k].name != external[i].name
        decreases |r| - j, !found
      {
        if r[j].name == externalPorts[i].name {
          found := true;
        } else {
          j := j + 1;
        }
      }
      assert external[i..][0] == external[i] && external[i..][1..] == external[i + 1..];
      if !found {
        if externalPorts[i].name == "" {
          externalPorts[i] := externalPorts[i].(name := "unset-" + Itoa(externalPorts[i].containerPort));
        }
        r := r + [externalPorts[i]];
      }
    }
  }

  /** The port number after the flag named like the port, if there is one. */
  function CoverOne(flags: map<string, string>, p: Port): Port {
    var flag := "--" + p.name;
    if flag in flags then p.(containerPort := IntVal(flags[flag])) else p
  }

  function Cover(flags: map<string, string>, ports: seq<Port>): (r: seq<Port>)
    ensures |r| == |ports| && forall i :: 0 <= i < |r| ==> r[i] == CoverOne(flags, ports[i])
  {
    seq(|ports|, i requires 0 <= i < |ports| => CoverOne(flags, ports[i]))
  }

  /** Covering with whatever the parser read before it stopped. */
  function Covered(args: seq<string>, ports: seq<Port>): Result<seq<Port>> {
    if Parse(args).status == Panicked then Panic else Ok(Cover(Parse(args).flags, ports))
  }

  method CoverPortsFromArgs(args: seq<string>, ports: seq<Port>) returns (r: Result<seq<Port>>)
    ensures r == Covered(args, ports)
  {
    var newPorts := new Port[|ports|](i requires 0 <= i < |ports| => ports[i]);
    var flags := new FlagSet();
    var ignored := flags.Parse(args);
    if ignored == Panicked { return Panic; }
    var parsedArgs := flags.actual;
    for i := 0 to |ports|
      invariant forall j :: 0 <= j < i ==> newPorts[j] == CoverOne(parsedArgs, ports[j])
      invariant forall j :: i <= j < |ports| ==> newPorts[j] == ports[j]
    {
      var flag := "--" + ports[i].name;
      if flag in parsedArgs {
        newPorts[i] := newPorts[i].(containerPort := IntVal(parsedArgs[flag]));
      }
    }
    assert newPorts[..] == Cover(parsedArgs, ports);
    return Ok(newPorts[..]);
  }

  function ToService(ports: seq<Port>): (r: seq<ServicePort>)
    ensures |r| == |ports|
    ensures forall i :: 0 <= i < |r| ==> r[i] == ServicePort(ports[i].name, ports[i].protocol, ports[i].containerPort)
  {
    seq(|ports|, i requires 0 <= i < |ports| => ServicePort(ports[i].name, ports[i].protocol, ports[i].containerPort))
  }

  method ConvertToServicePort(ports: seq<Port>) returns (servicePorts: seq<ServicePort>)
    ensures servicePorts == ToService(ports)
  {
    servicePorts := [];
    for i := 0 to |ports|
      invariant servicePorts == ToService(ports[..i])
    {
      servicePorts := servicePorts + [ServicePort(ports[i].name, ports[i].protocol, ports[i].containerPort)];
    }
    assert ports[..|ports|] == ports;
  }

  /** A Service and a container show the same ports exactly when the port lists are equal. */
  lemma ToServiceInjective(a: seq<Port>, b: seq<Port>)
    ensures ToService(a) == ToService(b) <==> a == b
  {
    if ToService(a) == ToService(b) {
      forall i | 0 <= i < |a| ensures a[i] == b[i] {
        assert ToService(a)[i] == ToService(b)[i];
      }
    }
  }

  // ---------- laws ----------

  /** Extending keeps the given ports first and unchanged, gives every external
      name a port, and repeats no name the inputs did not repeat. */
  lemma {:induction false} ExtendKeepsPorts(ports: seq<Port>, external: seq<Port>)
    requires forall e :: e in external ==> e.name != ""
    ensures ports <= ExtendWith(ports, external)
    ensures forall e :: e in external ==> Named(ExtendWith(ports, external), e.name)
    ensures DistinctNames(ports) ==> DistinctNames(ExtendWith(ports, external))
    decreases |external|
  {
    if external != [] {
      var next := if Named(ports, external[0].name) then ports else ports + [external[0]];
      ExtendKeepsPorts(next, external[1..]);
      assert Named(next, external[0].name) by {
        if next == ports + [external[0]] { assert next[|ports|].name == external[0].name; }
      }
      var r := ExtendWith(next, external[1..]);
      var j :| 0 <= j < |next| && next[j].name == external[0].name;
      assert r[j] == next[j];
    }
  }

  /** One external port: dropped if a port has its name, and otherwise added, under a name made from its number if it has none. */
  lemma ExtendsByOne(ports: seq<Port>, p: Port)
    ensures ExtendWith(ports, [p]) ==
            if exists j :: 0 <= j < |ports| && ports[j].name == p.name then ports
            else ports + [if p.name == "" then Port("unset-" + Itoa(p.containerPort), p.containerPort, p.protocol) else p]
  {
    assert [p][1..] == [];
  }

  /** Several external ports are taken one after the other. */
  lemma {:induction false} ExtendsInTurn(ports: seq<Port>, a: seq<Port>, b: seq<Port>)
    ensures ExtendWith(ports, a + b) == ExtendWith(ExtendWith(ports, a), b)
    decreases |a|
  {
    if a == [] {
      assert a + b == b;
    } else {
      assert (a + b)[0] == a[0] && (a + b)[1..] == a[1..] + b;
      ExtendsInTurn(if Named(ports, a[0].name) then ports else ports + [WithName(a[0])], a[1..], b);
    }
  }

  /** A port is given the number after the flag that is two dashes and its name, if the list as far as it is read has it. */
  lemma CoversByName(args: seq<string>, ports: seq<Port>, i: nat)
    requires Parse(args).status != Panicked && i < |ports|
    ensures var flags, flag := Parse(args).flags, "--" + ports[i].name;
            && Covered(args, ports).Ok? && |Covered(args, ports).value| == |ports|
            && Covered(args, ports).value[i] ==
               Port(ports[i].name, if flag in flags then IntVal(flags[flag]) else ports[i].containerPort, ports[i].protocol)
  {
  }

  predicate DistinctNames(ports: seq<Port>) {
    forall i, j :: 0 <= i < j < |ports| ==> ports[i].name != ports[j].name
  }

  lemma CoverIdempotent(flags: map<string, string>, ports: seq<Port>)
    ensures Cover(flags, Cover(flags, ports)) == Cover(flags, ports)
  {
  }

  /** Covering commutes with extending, up to a last covering. */
  lemma {:induction false} CoverExtend(flags: map<string, string>, a: seq<Port>, b: seq<Port>, external: seq<Port>)
    requires Cover(flags, a) == Cover(flags, b)
    ensures Cover(flags, ExtendWith(a, external)) == Cover(flags, ExtendWith(b, external))
    ensures |ExtendWith(a, external)| == |ExtendWith(b, external)|
    decreases |external|
  {
    if external != [] {
      var e := external[0];
      forall i | 0 <= i < |a| ensures a[i].name == b[i].name {
        assert Cover(flags, a)[i].name == Cover(flags, b)[i].name;
      }
      assert |a| == |Cover(flags, a)| == |b|;
      assert Named(a, e.name) <==> Named(b, e.name);
      if Named(a, e.name) {
        CoverExtend(flags, a, b, external[1..]);
      } else {
        var x := [WithName(e)];
        assert Cover(flags, a + x) == Cover(flags, a) + Cover(flags, x);
        assert Cover(flags, b + x) == Cover(flags, b) + Cover(flags, x);
        CoverExtend(flags, a + x, b + x, external[1..]);
      }
    }
  }

  /** Covering changes nothing exactly when no flag named like a port says otherwise. */
  predicate Agrees(flags: map<string, string>, p: Port) {
    "--" + p.name in flags ==> IntVal(flags["--" + p.name]) == p.containerPort
  }

  lemma CoverFixed(flags: map<string, string>, ports: seq<Port>)
    ensures Cover(flags, ports) == ports <==> forall p :: p in ports ==> Agrees(flags, p)
  {
    if Cover(flags, ports) == ports {
      forall p | p in ports ensures Agrees(flags, p) {
        var i :| 0 <= i < |ports| && ports[i] == p;
        assert Cover(flags, ports)[i] == p;
      }
    }
    if forall p :: p in ports ==> Agrees(flags, p) {
      forall i | 0 <= i < |ports| ensures Cover(flags, ports)[i] == ports[i] {
        assert Agrees(flags, ports[i]);
      }
    }
  }
}
