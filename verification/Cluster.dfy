/** The API server and the HStreamDB cluster as the operator meets them: stored
    objects, calls that may fail, and an environment that acts between calls. */
module Cluster {
  import opened Text
  import opened Ports
  import opened Api
  import opened Templates

  // ---------- stored objects ----------

  datatype Kind = KHMeta | KAdminServer | KHStore | KHServer | KGateway | KConsole

  datatype Key = Service(kind: Kind) | Workload(kind: Kind)

  datatype Body = ServiceBody(ports: seq<ServicePort>) | WorkloadBody(template: Template)

  /** A Service, StatefulSet or Deployment: its hash annotation, its contents, its ready replicas. */
  datatype Object = Object(hash: string, body: Body, ready: nat)

  datatype LogDeviceConfig = LogDeviceConfig(nodeNum: int, hmetaAddr: string, existing: string)

  datatype HMetaNode = HMetaNode(reachable: bool, leader: bool, error: string)

  datatype Condition = HMetaReady | HStoreReady | HServerReady | GatewayReady | ConsoleReady | Ready

  /** One successful `nodes-config bootstrap`: what was sent, and what the StatefulSet then showed. */
  datatype Bootstrap = Bootstrap(replication: int, desired: int, across: Option<int>, ready: nat)

  /** Everything stored, and (last five fields) what the operator has done so far. */
  datatype World = World(
    spec: Spec,
    conditions: map<Condition, bool>,
    nodes: map<string, HMetaNode>,
    version: nat,
    logDevice: Option<LogDeviceConfig>,
    nshards: Option<string>,
    objects: map<Key, Object>,
    writes: nat,                  // creations and updates of owned objects
    bootstraps: seq<Bootstrap>,   // successful HStore bootstraps
    lostBootstraps: nat,          // status writes that failed right after one
    inits: nat,                   // successful HServer inits
    lostInits: nat)               // status writes that failed right after one

  /** The operator's copy of the resource, maybe stale. */
  datatype Copy = Copy(spec: Spec, conditions: map<Condition, bool>, nodes: map<string, HMetaNode>, version: nat)

  // ---------- the environment ----------

  /** What others do before a call is served: edit the resource's spec, touch its metadata, change ready counts. */
  datatype Interference = Interference(spec: Option<Spec>, touches: nat, ready: map<Key, nat>)

  datatype Fault = NoFault | Conflict | Other

  /** How one call meets the cluster. Two reads have failures of their own, because the
      operator goes on after them: of the nshards ConfigMap, and of the live HServer port. */
  datatype Tick = Tick(env: Interference, fault: Fault, shardReadFails: bool, portReadFails: bool, nodes: map<string, HMetaNode>, gatewayFirst: bool)

  /** The run's surroundings: one tick per call, and the hash of an object under a key. */
  datatype Surroundings = Surroundings(tape: nat -> Tick, hash: (Key, Body) -> string)

  function Interfere(env: Interference, w: World): World {
    w.(spec := if env.spec.Some? then env.spec.value else w.spec,
       version := w.version + env.touches + (if env.spec.Some? then 1 else 0),
       objects := map k | k in w.objects ::
         if k in env.ready then w.objects[k].(ready := env.ready[k]) else w.objects[k])
  }

  // ---------- a run's state ----------

  /** The world, the operator's copy, the number of calls so far, and every stored world there has been. */
  datatype State = State(w: World, copy: Copy, clock: nat, log: seq<World>)

  /** A call is made: the environment acts first. */
  function Call(e: Surroundings, s: State): State {
    var w := Interfere(e.tape(s.clock).env, s.w);
    s.(w := w, clock := s.clock + 1, log := s.log + [w])
  }

  /** The fault the last call met. */
  function FaultOf(e: Surroundings, s: State): Fault
    requires s.clock > 0
  {
    e.tape(s.clock - 1).fault
  }

  function TickOf(e: Surroundings, s: State): Tick
    requires s.clock > 0
  {
    e.tape(s.clock - 1)
  }

  /** A write takes effect. */
  function Store(s: State, w: World): State { s.(w := w, log := s.log + [w]) }

  // ---------- requeues ----------

  datatype Error = ConflictError | OtherError

  /** What a sub-reconciler hands back: a delay in seconds, an error, or a wish to requeue at the end. */
  datatype Requeue = Requeue(delay: nat, error: Option<Error>, message: string, delayed: bool)

  /** A sub-reconciler's verdict: go on, stop with a requeue, or panic. */
  datatype Verdict = Go | Stop(requeue: Requeue) | Crash

  function Failing(err: Error): Verdict { Stop(Requeue(0, Some(err), "", false)) }

  function Waiting(message: string, delay: nat): Verdict { Stop(Requeue(delay, None, message, false)) }

  function ErrorOf(f: Fault): Error { if f == Conflict then ConflictError else OtherError }

  /** The outcome of a status write: it commits exactly when no fault occurs and
      the copy's version is current, and then the copy takes the new version. */
  function StatusWrite(e: Surroundings, s0: State): (State, Option<Error>) {
    var s := Call(e, s0);
    if FaultOf(e, s) != NoFault then (s, Some(ErrorOf(FaultOf(e, s))))
    else if s.copy.version != s.w.version then (s, Some(ConflictError))
    else
      var w := s.w.(conditions := s.copy.conditions, nodes := s.copy.nodes, version := s.w.version + 1);
      (Store(s, w).(copy := s.copy.(version := w.version)), None)
  }

  /** `createOrUpdate`, and the same get, compare and write of every workload reconciler. */
  function Ensure(e: Surroundings, s0: State, key: Key, body: Body): (State, Verdict) {
    var s := Call(e, s0);
    var hash := e.hash(key, body);
    if FaultOf(e, s) != NoFault then (s, Failing(ErrorOf(FaultOf(e, s))))
    else if key in s.w.objects && s.w.objects[key].hash == hash then (s, Go)
    else
      var s2 := Call(e, s);
      if FaultOf(e, s2) != NoFault then (s2, Failing(ErrorOf(FaultOf(e, s2))))
      else (Store(s2, Written(s2.w, key, hash, body)), Go)
  }

  /** The world after an object is created, or updated with its ready count kept. */
  function Written(w: World, key: Key, hash: string, body: Body): World {
    var ready := if key in w.objects then w.objects[key].ready else 0;
    w.(objects := w.objects[key := Object(hash, body, ready)], writes := w.writes + 1)
  }
}
