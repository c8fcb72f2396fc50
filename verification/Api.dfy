/** The HStreamDB resource, as far as the operator reads it. Fields it only copies are kept as one opaque text. */
module Api {
  import opened Text
  import opened Ports
  import opened HMeta

  /** Go's int32. */
  type int32 = n: int | -0x8000_0000 <= n <= 0x7fff_ffff

  datatype EnvVar = EnvVar(name: string, value: string)

  datatype Container = Container(name: string, command: seq<string>, args: seq<string>, ports: seq<Port>,
                                 env: seq<EnvVar>, copied: string)

  datatype Component = Component(replicas: int32, container: Container, copied: string)

  datatype Gateway = Gateway(component: Component, port: int, endpoint: string, secretRef: Option<string>)

  datatype Spec = Spec(
    instance: Instance,
    externalHMeta: Option<ExternalHMeta>,
    metadataReplicateAcross: Option<int32>,
    nShards: int32,
    logDeviceConfig: string,
    gateway: Option<Gateway>,
    console: Option<Component>,
    adminServer: Component,
    hServer: Component,
    hStore: Component,
    hMeta: Component)
}
