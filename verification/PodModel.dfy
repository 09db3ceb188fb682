/** Merging the containers of a pod, from single fields up to whole lists. */
module PodModel {
  import opened Text
  import opened Sorting
  import opened KeyedMerge
  import opened StringUnion

  datatype Option<T> = None | Some(value: T)

  /** A payload the merge only ever copies whole. */
  type Blob = string

  datatype EnvVar = EnvVar(name: string, value: string, valueFrom: Option<Blob>)

  datatype ContainerPort = ContainerPort(name: string, containerPort: int, hostPort: int, protocol: string,
      hostIP: string)

  datatype VolumeMount = VolumeMount(name: string, readOnly: bool, mountPath: string, subPath: string,
                                     mountPropagation: Option<Blob>, subPathExpr: string)

  datatype VolumeDevice = VolumeDevice(name: string, devicePath: string)

  datatype Resources = Resources(limits: Option<Blob>, requests: Option<Blob>)

  datatype Probe = Probe(exec: Option<Blob>, httpGet: Option<Blob>, tcpSocket: Option<Blob>,
                         initialDelaySeconds: int, timeoutSeconds: int, periodSeconds: int,
                         successThreshold: int, failureThreshold: int)

  datatype Lifecycle = Lifecycle(postStart: Option<Blob>, preStop: Option<Blob>)

  datatype SecurityContext = SecurityContext(capabilities: Option<Blob>, privileged: Option<Blob>,
                                             seLinuxOptions: Option<Blob>, windowsOptions: Option<Blob>,
                                             runAsUser: Option<Blob>, runAsGroup: Option<Blob>,
                                             runAsNonRoot: Option<Blob>, readOnlyRootFilesystem: Option<Blob>,
                                             allowPrivilegeEscalation: Option<Blob>, procMount: Option<Blob>)

  datatype Container = Container(
    name: string, image: string, command: seq<string>, args: seq<string>, workingDir: string,
    ports: seq<ContainerPort>, envFrom: Blob, env: seq<EnvVar>, resources: Resources,
    volumeMounts: seq<VolumeMount>, volumeDevices: seq<VolumeDevice>,
    livenessProbe: Option<Probe>, readinessProbe: Option<Probe>, startupProbe: Option<Probe>,
    lifecycle: Option<Lifecycle>, terminationMessagePath: string, terminationMessagePolicy: string,
    imagePullPolicy: string, securityContext: Option<SecurityContext>,
    stdin: bool, stdinOnce: bool, tty: bool)

  // ---------------------------------------------------------------- single entries

  function OrString(original: string, override: string): string { if override != "" then override else original }

  function OrInt(original: int, override: int): int { if override != 0 then override else original }

  function OrSome<T>(original: Option<T>, override: Option<T>): Option<T> {
    if override.Some? then override else original
  }

  function MergeEnv(original: EnvVar, override: EnvVar): EnvVar {
    var merged := if override.value != "" then original.(value := override.value, valueFrom := None) else original;
    if override.valueFrom.Some? then merged.(valueFrom := override.valueFrom, value := "") else merged
  }

  function MergePort(original: ContainerPort, override: ContainerPort): ContainerPort {
    ContainerPort(OrString(original.name, override.name), OrInt(original.containerPort, override.containerPort),
                  OrInt(original.hostPort, override.hostPort), OrString(original.protocol, override.protocol),
                  OrString(original.hostIP, override.hostIP))
  }

  function MergeMount(original: VolumeMount, override: VolumeMount): VolumeMount {
    VolumeMount(OrString(original.name, override.name), original.readOnly || override.readOnly,
                OrString(original.mountPath, override.mountPath), OrString(original.subPath, override.subPath),
                OrSome(original.mountPropagation, override.mountPropagation),
                OrString(original.subPathExpr, override.subPathExpr))
  }

  function MergeDevice(original: VolumeDevice, override: VolumeDevice): VolumeDevice {
    VolumeDevice(OrString(original.name, override.name), OrString(original.devicePath, override.devicePath))
  }

  function MergeResources(original: Resources, override: Resources): Resources {
    Resources(OrSome(original.limits, override.limits), OrSome(original.requests, override.requests))
  }

  function MergeProbe(original: Option<Probe>, override: Option<Probe>): Option<Probe> {
    if override.None? then original
    else if original.None? then override
    else
      var d, o := original.value, override.value;
      Some(Probe(OrSome(d.exec, o.exec), OrSome(d.httpGet, o.httpGet), OrSome(d.tcpSocket, o.tcpSocket),
                 OrInt(d.initialDelaySeconds, o.initialDelaySeconds), OrInt(d.timeoutSeconds, o.timeoutSeconds),
                 OrInt(d.periodSeconds, o.periodSeconds), OrInt(d.successThreshold, o.successThreshold),
                 OrInt(d.failureThreshold, o.failureThreshold)))
  }

  function MergeLifecycle(original: Option<Lifecycle>, override: Option<Lifecycle>): Option<Lifecycle> {
    if override.None? then original
    else if original.None? then override
    else Some(Lifecycle(OrSome(original.value.postStart, override.value.postStart),
                        OrSome(original.value.preStop, override.value.preStop)))
  }

  function MergeSecurity(original: Option<SecurityContext>,
      override: Option<SecurityContext>): Option<SecurityContext> {
    if override.None? then original
    else if original.None? then override
    else
      var d, o := original.value, override.value;
      Some(SecurityContext(OrSome(d.capabilities, o.capabilities), OrSome(d.privileged, o.privileged),
                           OrSome(d.seLinuxOptions, o.seLinuxOptions), OrSome(d.windowsOptions, o.windowsOptions),
                           OrSome(d.runAsUser, o.runAsUser), OrSome(d.runAsGroup, o.runAsGroup),
                           OrSome(d.runAsNonRoot, o.runAsNonRoot),
                           OrSome(d.readOnlyRootFilesystem, o.readOnlyRootFilesystem),
                           OrSome(d.allowPrivilegeEscalation, o.allowPrivilegeEscalation),
                           OrSome(d.procMount, o.procMount)))
  }

  // ---------------------------------------------------------------- keys

  function EnvName(e: EnvVar): string { e.name }

  function PortName(p: ContainerPort): string { p.name }

  function DeviceName(d: VolumeDevice): string { d.name }

  function ContainerName(c: Container): string { c.name }

  /** `volumeMountToString`: the three components joined by an underscore. */
  function MountKey(m: VolumeMount): string { m.name + "_" + m.mountPath + "_" + m.subPath }

  // ---------------------------------------------------------------- what the lists become

  ghost function MergeEnvs(original: seq<EnvVar>, override: seq<EnvVar>): seq<EnvVar> {
    MergeBy(original, override, EnvName, MergeEnv)
  }

  ghost function MergePorts(original: seq<ContainerPort>, override: seq<ContainerPort>): seq<ContainerPort> {
    MergeBy(original, override, PortName, MergePort)
  }

  ghost function MergeMounts(original: seq<VolumeMount>, override: seq<VolumeMount>): seq<VolumeMount> {
    MergeBy(original, override, MountKey, MergeMount)
  }

  ghost function MergeDevices(original: seq<VolumeDevice>, override: seq<VolumeDevice>): seq<VolumeDevice> {
    MergeBy(original, override, DeviceName, MergeDevice)
  }

  ghost function MergeContainer(original: Container, override: Container): Container {
    Container(
      OrString(original.name, override.name), OrString(original.image, override.image),
      Union(original.command, override.command), Union(original.args, override.args),
      OrString(original.workingDir, override.workingDir),
      MergePorts(original.ports, override.ports), original.envFrom, MergeEnvs(original.env, override.env),
      MergeResources(original.resources, override.resources),
      MergeMounts(original.volumeMounts, override.volumeMounts),
      MergeDevices(original.volumeDevices, override.volumeDevices),
      MergeProbe(original.livenessProbe, override.livenessProbe),
      MergeProbe(original.readinessProbe, override.readinessProbe),
      MergeProbe(original.startupProbe, override.startupProbe),
      MergeLifecycle(original.lifecycle, override.lifecycle),
      OrString(original.terminationMessagePath, override.terminationMessagePath),
      OrString(original.terminationMessagePolicy, override.terminationMessagePolicy),
      OrString(original.imagePullPolicy, override.imagePullPolicy),
      MergeSecurity(original.securityContext, override.securityContext),
      original.stdin || override.stdin, original.stdinOnce || override.stdinOnce, original.tty || override.tty)
  }

  ghost function MergeContainers(original: seq<Container>, override: seq<Container>): seq<Container> {
    MergeBy(original, override, ContainerName, MergeContainer)
  }

  // ---------------------------------------------------------------- mounts that may be keyed

  /** The part of a mount its key is made of. */
  predicate SameTarget(x: VolumeMount, y: VolumeMount) {
    x.name == y.name && x.mountPath == y.mountPath && x.subPath == y.subPath
  }

  /** No two of these mounts collide: the joined key tells their components apart. */
  ghost predicate Faithful(ms: set<VolumeMount>) {
    forall x, y | x in ms && y in ms && MountKey(x) == MountKey(y) :: SameTarget(x, y)
  }

  ghost function Elements<T>(s: seq<T>): set<T> { set x | x in s }

  ghost function MountsOf(cs: seq<Container>): set<VolumeMount> {
    set c, m | c in cs && m in c.volumeMounts :: m
  }
}
