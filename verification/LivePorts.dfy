/** The two components together: after a done pass the live Service and the live workload of
    a component list the same ports, under the conditions of modules Agreement and HServer. */
module LivePorts {
  import opened Text
  import opened Flags
  import opened Ports
  import opened HMeta
  import opened Agreement
  import opened Api
  import opened HServer
  import opened Templates
  import opened Cluster
  import opened Steps
  import opened Settling
  import opened Quiescence
  import opened Safety
  import opened Runs

  /** Two bodies list the same ports, in whatever order. */
  predicate SamePorts(a: Body, b: Body) {
    match a
    case ServiceBody(ports) => b.ServiceBody? && multiset(ports) == multiset(b.ports)
    case WorkloadBody(t) => b.WorkloadBody? && multiset(t.ports) == multiset(b.template.ports)
  }

  /** Equal hashes under one key imply equal ports up to their order, which the hash ignores. */
  ghost predicate HashTellsPorts(e: Surroundings) {
    forall key: Key, a: Body, b: Body :: e.hash(key, a) == e.hash(key, b) ==> SamePorts(a, b)
  }

  /** The live Service and workload are there and list the same ports. */
  ghost predicate LiveAgree(w: World, kind: Kind) {
    && Service(kind) in w.objects && w.objects[Service(kind)].body.ServiceBody?
    && Workload(kind) in w.objects && w.objects[Workload(kind)].body.WorkloadBody?
    && multiset(ToService(w.objects[Workload(kind)].body.template.ports)) == multiset(w.objects[Service(kind)].body.ports)
  }

  /** The Service ports of a port list, order aside. */
  ghost function Bag(ports: seq<Port>): multiset<ServicePort> { multiset(ToService(ports)) }

  predicate SameBag(a: seq<Port>, b: seq<Port>) { multiset(a) == multiset(b) }

  lemma BagOfBoth(a: seq<Port>, b: seq<Port>)
    ensures Bag(a + b) == Bag(a) + Bag(b)
  {
    assert ToService(a + b) == ToService(a) + ToService(b);
  }

  function Without(b: seq<Port>, k: nat): seq<Port>
    requires k < |b|
  {
    b[..k] + b[k + 1..]
  }

  /** Taking one port out, wherever it is. */
  lemma BagWithout(b: seq<Port>, k: nat)
    requires k < |b|
    ensures Bag(b) == Bag([b[k]]) + Bag(Without(b, k))
  {
    hide Bag;
    assert b == b[..k] + ([b[k]] + b[k + 1..]);
    BagOfBoth(b[..k], [b[k]] + b[k + 1..]);
    BagOfBoth([b[k]], b[k + 1..]);
    BagOfBoth(b[..k], b[k + 1..]);
  }

  lemma FirstFound(a: seq<Port>, b: seq<Port>) returns (k: nat)
    requires a != [] && SameBag(a, b)
    ensures k < |b| && b[k] == a[0] && SameBag(Without(a, 0), Without(b, k)) && |Without(a, 0)| < |a|
  {
    assert a[0] in multiset(b);
    k :| 0 <= k < |b| && b[k] == a[0];
    WithoutLess(a, 0);
    WithoutLess(b, k);
  }

  lemma WithoutLess(b: seq<Port>, k: nat)
    requires k < |b|
    ensures multiset(Without(b, k)) == multiset(b) - multiset{b[k]}
  {
    assert b == b[..k] + [b[k]] + b[k + 1..];
  }

  lemma BothEmpty(b: seq<Port>)
    requires SameBag([], b)
    ensures b == []
  {
    assert |multiset(b)| == 0;
  }

  /** Converting to Service ports keeps equality up to order. */
  lemma {:induction false} ToServiceOfSame(a: seq<Port>, b: seq<Port>)
    requires SameBag(a, b)
    ensures Bag(a) == Bag(b)
    decreases |a|
  {
    hide Bag, SameBag, Without;
    if a == [] {
      BothEmpty(b);
    } else {
      var k := FirstFound(a, b);
      ToServiceOfSame(Without(a, 0), Without(b, k));
      BagWithout(a, 0);
      BagWithout(b, k);
    }
  }

  /** Objects that are up to date with agreeing ports list the same ones. */
  lemma UpToDateAgree(e: Surroundings, w: World, kind: Kind, t: Template, p: seq<ServicePort>)
    requires Hashed(e, w) && HashTellsPorts(e)
    requires UpToDate(e, w, Workload(kind), WorkloadBody(t)) && UpToDate(e, w, Service(kind), ServiceBody(p))
    requires ToService(t.ports) == p
    ensures LiveAgree(w, kind)
  {
    var workload, service := w.objects[Workload(kind)].body, w.objects[Service(kind)].body;
    assert SamePorts(workload, WorkloadBody(t)) && SamePorts(service, ServiceBody(p));
    ToServiceOfSame(workload.template.ports, t.ports);
  }

  // ---------- the conditions ----------

  /** What the user's arguments and ports must be like. */
  ghost predicate PortsWillAgree(spec: Spec, kind: Kind, shards: int) {
    match kind
    case KHMeta =>
      var c := spec.hMeta.container;
      && spec.externalHMeta.None? && Parse(c.args).Accepted()
      && (|| AllPlain(Parse(c.args).flags)
          || HttpAddrPort(Parse(c.args).flags).None?
          || (Named(c.ports, "port") && Named(c.ports, "rqlite")))
    case KAdminServer =>
      var c := spec.adminServer.container;
      Parse(c.args).Accepted() && AllPlain(Parse(c.args).flags) && NoneNamedAfter(c.ports, ADMIN_SERVER_DEFAULTS)
    case KHStore =>
      var c := spec.hStore.container;
      Parse(c.args).Accepted() && AllPlain(Parse(c.args).flags) && NoneNamedAfter(c.ports, HStoreDefaults(shards))
    case KHServer =>
      var c := spec.hServer.container;
      var f := Parse(c.args).flags;
      OwnCommand(c) || "--port" in f || "--internal-port" in f || forall p :: p in c.ports ==> Agrees(f, p)
    case _ => false
  }

  ghost function TemplateOf(spec: Spec, kind: Kind, shards: int): Result<Template> {
    match kind
    case KHMeta => HMetaTemplate(spec)
    case KAdminServer => AdminServerTemplate(spec)
    case KHStore => HStoreTemplate(spec, shards)
    case _ => HServerTemplate(spec)
  }

  lemma HMetaPorts(spec: Spec, shards: int)
    requires PortsWillAgree(spec, KHMeta, shards) && HMetaTemplate(spec).Ok?
    ensures ContainerServicePorts(spec, KHMeta).Ok? && ToService(HMetaTemplate(spec).value.ports) == ContainerServicePorts(spec, KHMeta).value
  {
    hide Run, ContainerArgs, ParseHMetaPort, ExtendWith;
    HMetaPortsAgree(spec.instance, spec.hMeta.replicas, spec.hMeta.container.args, spec.hMeta.container.ports);
  }

  lemma AdminServerPorts(spec: Spec, shards: int)
    requires PortsWillAgree(spec, KAdminServer, shards) && AdminServerTemplate(spec).Ok?
    ensures ContainerServicePorts(spec, KAdminServer).Ok?
    ensures ToService(AdminServerTemplate(spec).value.ports) == ContainerServicePorts(spec, KAdminServer).value
  {
    hide Run, ContainerArgs, Covered, ExtendWith;
    HStoreAndAdminServerAgree(spec.adminServer.container.args, spec.adminServer.container.ports, 0);
  }

  lemma HStorePorts(spec: Spec, shards: int32)
    requires PortsWillAgree(spec, KHStore, shards) && HStoreTemplate(spec, shards).Ok?
    ensures ContainerServicePorts(spec, KHStore).Ok?
    ensures ToService(HStoreTemplate(spec, shards).value.ports) == ContainerServicePorts(spec, KHStore).value
  {
    hide Run, ContainerArgs, Covered, ExtendWith, HStoreDefaults;
    HStoreAndAdminServerAgree(spec.hStore.container.args, spec.hStore.container.ports, shards);
  }

  lemma HServerPorts(spec: Spec, shards: int)
    requires PortsWillAgree(spec, KHServer, shards) && HServerTemplate(spec).Ok?
    ensures ContainerServicePorts(spec, KHServer).Ok?
    ensures ToService(HServerTemplate(spec).value.ports) == ContainerServicePorts(spec, KHServer).value
  {
    hide Run, Managed, StatefulSetPorts, ServicePorts, Tokens;
    PanicsExactly(spec, 0);
    PanicExactlyAtLoneDash(spec.hServer.container.args);
    HServerPortsAgree(spec);
  }

  lemma DesiredAgree(spec: Spec, kind: Kind, shards: int32)
    requires PortsWillAgree(spec, kind, shards) && TemplateOf(spec, kind, shards).Ok?
    ensures ContainerServicePorts(spec, kind).Ok?
    ensures ToService(TemplateOf(spec, kind, shards).value.ports) == ContainerServicePorts(spec, kind).value
  {
    hide HMetaTemplate, AdminServerTemplate, HStoreTemplate, HServerTemplate, ContainerServicePorts;
    match kind
    case KHMeta => HMetaPorts(spec, shards);
    case KAdminServer => AdminServerPorts(spec, shards);
    case KHStore => HStorePorts(spec, shards);
    case KHServer => HServerPorts(spec, shards);
    case _ =>
  }

  // ---------- after a done pass ----------

  lemma SettledUpToDate(e: Surroundings, w: World, spec: Spec, kind: Kind)
    requires Settled(e, w, spec, |STEPS|)
    requires kind in SERVICED && (kind == KHMeta ==> spec.externalHMeta.None?)
    ensures w.nshards.Some?
    ensures ServiceUpToDate(e, w, kind, ContainerServicePorts(spec, kind))
    ensures TemplateUpToDate(e, w, kind, TemplateOf(spec, kind, ShardCount(w.nshards.value, spec.nShards)))
  {
    hide HMetaTemplate, AdminServerTemplate, HStoreTemplate, HServerTemplate, ConsoleTemplate, GatewayTemplate, ContainerServicePorts, LiveHServerPort;
    assert Part(e, w, spec, 0) && Part(e, w, spec, 1) && Part(e, w, spec, 2) && Part(e, w, spec, 4) && Part(e, w, spec, 5) && Part(e, w, spec, 7);
    assert ServiceDone(e, w, spec, kind);
  }

  /** In every run, after a done pass whose swallowed reads told it what it needs: the live
      Service and workload of a component list the same ports, up to order, if the user's
      arguments and ports are as the agreement of that component asks. */
  lemma LivePortsAgree(e: Surroundings, spec: Spec, views: nat -> Read, n: nat, view: Read, kind: Kind)
    requires HashTellsPorts(e)
    requires Pass(e, Passes(e, Fresh(spec), views, n), view).1.Done? && PassTold(e, Passes(e, Fresh(spec), views, n), view)
    ensures var s := Passes(e, Fresh(spec), views, n);
            var t, now := Pass(e, s, view).0, SpecOf(e, s, view);
            t.w.nshards.Some? && (PortsWillAgree(now, kind, ShardCount(t.w.nshards.value, now.nShards)) ==> LiveAgree(t.w, kind))
  {
    hide Passes, Pass, Good, PassTold, SpecOf, Settled, PortsWillAgree, TemplateOf, ContainerServicePorts, LiveAgree, HashTellsPorts, Hashed,
         ShardCount;
    var s := Passes(e, Fresh(spec), views, n);
    var t, now := Pass(e, s, view).0, SpecOf(e, s, view);
    RunKeeps(e, spec, views, n);
    PassKeeps(e, s, view);
    StoredIsHashed(e, t);
    PassSettlesExactly(e, s, view);
    SettledUpToDate(e, t.w, now, KAdminServer);
    var shards := ShardCount(t.w.nshards.value, now.nShards);
    if PortsWillAgree(now, kind, shards) {
      WillAgreeKind(now, kind, shards);
      SettledUpToDate(e, t.w, now, kind);
      DesiredAgree(now, kind, shards);
      UpToDateAgree(e, t.w, kind, TemplateOf(now, kind, shards).value, ContainerServicePorts(now, kind).value);
    }
  }

  lemma WillAgreeKind(spec: Spec, kind: Kind, shards: int)
    requires PortsWillAgree(spec, kind, shards)
    ensures kind in SERVICED && (kind == KHMeta ==> spec.externalHMeta.None?)
  {
    hide Run, AllPlain, NoneNamedAfter, OwnCommand;
  }
}
