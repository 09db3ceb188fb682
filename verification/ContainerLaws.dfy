/** Associativity and reapplication of the container merge, through every nested list. */
module ContainerLaws {
  import opened Text
  import opened Sorting
  import opened KeyedMerge
  import opened MergeLaws
  import opened StringUnion
  import opened PodModel

  // ---------------------------------------------------------------- keys survive combination

  lemma EnvKeepsName(a: seq<EnvVar>, b: seq<EnvVar>)
    ensures KeepsKey(a, b, EnvName, MergeEnv)
  {
    KeepsKeyAlways(a, b, EnvName, MergeEnv);
  }

  lemma PortKeepsName(a: seq<ContainerPort>, b: seq<ContainerPort>)
    ensures KeepsKey(a, b, PortName, MergePort)
  {
    KeepsKeyAlways(a, b, PortName, MergePort);
  }

  lemma DeviceKeepsName(a: seq<VolumeDevice>, b: seq<VolumeDevice>)
    ensures KeepsKey(a, b, DeviceName, MergeDevice)
  {
    KeepsKeyAlways(a, b, DeviceName, MergeDevice);
  }

  lemma ContainerKeepsName(a: seq<Container>, b: seq<Container>)
    ensures KeepsKey(a, b, ContainerName, MergeContainer)
  {
    KeepsKeyAlways(a, b, ContainerName, MergeContainer);
  }

  lemma MountKeepsKey(a: seq<VolumeMount>, b: seq<VolumeMount>)
    requires Faithful(Elements(a) + Elements(b))
    ensures KeepsKey(a, b, MountKey, MergeMount)
  {
    IndexSound(a, MountKey);
    IndexSound(b, MountKey);
    var A, B := IndexBy(a, MountKey), IndexBy(b, MountKey);
    forall k | k in A && k in B ensures MountKey(MergeMount(A[k], B[k])) == k {
      assert A[k] in Elements(a) && B[k] in Elements(b);
      assert MountKey(A[k]) == k && MountKey(B[k]) == k;
      assert SameTarget(A[k], B[k]);
    }
  }

  lemma SameTargetSameKey(x: VolumeMount, y: VolumeMount)
    requires SameTarget(x, y)
    ensures MountKey(x) == MountKey(y)
  {
  }

  /** Overridden a second time by the same mount, a merged mount keeps its target. */
  lemma TargetSettles(x: VolumeMount, y: VolumeMount)
    ensures SameTarget(MergeMount(MergeMount(x, y), y), MergeMount(x, y)) && MergeMount(y, y) == y
  {
  }

  lemma MergedMountsKeyed(a: seq<VolumeMount>, b: seq<VolumeMount>)
    requires KeepsKey(a, b, MountKey, MergeMount)
    ensures KeepsKey(MergeMounts(a, b), b, MountKey, MergeMount)
  {
    hide MountKey, IndexBy, MergeMount, SameTarget, Listing;
    var A, B, M := IndexBy(a, MountKey), IndexBy(b, MountKey), IndexBy(MergeMounts(a, b), MountKey);
    IndexMerge(a, b, MountKey, MergeMount);
    IndexSound(b, MountKey);
    forall k | k in M && k in B ensures MountKey(MergeMount(M[k], B[k])) == k {
      if k in A {
        TargetSettles(A[k], B[k]);
        SameTargetSameKey(MergeMount(M[k], B[k]), M[k]);
      } else {
        TargetSettles(B[k], B[k]);
      }
    }
  }

  lemma SelfMountsKeyed(a: seq<VolumeMount>)
    ensures KeepsKey(a, a, MountKey, MergeMount)
  {
    hide MountKey, IndexBy, MergeMount;
    IndexSound(a, MountKey);
    forall k | k in IndexBy(a, MountKey) { TargetSettles(IndexBy(a, MountKey)[k], IndexBy(a, MountKey)[k]); }
  }

  /** For every name of both lists the merged mounts keep their keys. */
  ghost predicate MountsKeepKeys(a: seq<Container>, b: seq<Container>) {
    var A, B := IndexBy(a, ContainerName), IndexBy(b, ContainerName);
    forall k | k in A && k in B :: KeepsKey(A[k].volumeMounts, B[k].volumeMounts, MountKey, MergeMount)
  }

  lemma IndexedMounts(cs: seq<Container>, k: string)
    requires k in IndexBy(cs, ContainerName)
    ensures Elements(IndexBy(cs, ContainerName)[k].volumeMounts) <= MountsOf(cs)
  {
    IndexSound(cs, ContainerName);
  }

  /** Mounts that do not collide keep their keys. */
  lemma FaithfulKeepKeys(a: seq<Container>, b: seq<Container>)
    requires Faithful(MountsOf(a) + MountsOf(b))
    ensures MountsKeepKeys(a, b)
  {
    hide KeepsKey, IndexBy;
    var A, B := IndexBy(a, ContainerName), IndexBy(b, ContainerName);
    forall k | k in A && k in B ensures KeepsKey(A[k].volumeMounts, B[k].volumeMounts, MountKey, MergeMount) {
      IndexedMounts(a, k);
      IndexedMounts(b, k);
      MountKeepsKey(A[k].volumeMounts, B[k].volumeMounts);
    }
  }

  // ---------------------------------------------------------------- associativity

  lemma EnvsAssociative(a: seq<EnvVar>, b: seq<EnvVar>, c: seq<EnvVar>)
    ensures MergeEnvs(MergeEnvs(a, b), c) == MergeEnvs(a, MergeEnvs(b, c))
  {
    EnvKeepsName(a, b);
    EnvKeepsName(b, c);
    MergeAssociative(a, b, c, EnvName, MergeEnv);
  }

  lemma PortsAssociative(a: seq<ContainerPort>, b: seq<ContainerPort>, c: seq<ContainerPort>)
    ensures MergePorts(MergePorts(a, b), c) == MergePorts(a, MergePorts(b, c))
  {
    PortKeepsName(a, b);
    PortKeepsName(b, c);
    MergeAssociative(a, b, c, PortName, MergePort);
  }

  lemma DevicesAssociative(a: seq<VolumeDevice>, b: seq<VolumeDevice>, c: seq<VolumeDevice>)
    ensures MergeDevices(MergeDevices(a, b), c) == MergeDevices(a, MergeDevices(b, c))
  {
    DeviceKeepsName(a, b);
    DeviceKeepsName(b, c);
    MergeAssociative(a, b, c, DeviceName, MergeDevice);
  }

  lemma MountsAssociative(a: seq<VolumeMount>, b: seq<VolumeMount>, c: seq<VolumeMount>)
    requires KeepsKey(a, b, MountKey, MergeMount) && KeepsKey(b, c, MountKey, MergeMount)
    ensures MergeMounts(MergeMounts(a, b), c) == MergeMounts(a, MergeMounts(b, c))
  {
    MergeAssociative(a, b, c, MountKey, MergeMount);
  }

  lemma ProbeAssociative(x: Option<Probe>, y: Option<Probe>, z: Option<Probe>)
    ensures MergeProbe(MergeProbe(x, y), z) == MergeProbe(x, MergeProbe(y, z))
  {
  }

  lemma ContainerAssociative(x: Container, y: Container, z: Container)
    requires KeepsKey(x.volumeMounts, y.volumeMounts, MountKey, MergeMount)
    requires KeepsKey(y.volumeMounts, z.volumeMounts, MountKey, MergeMount)
    ensures MergeContainer(MergeContainer(x, y), z) == MergeContainer(x, MergeContainer(y, z))
  {
    hide MergeEnvs, MergePorts, MergeMounts, MergeDevices, KeepsKey;
    UnionAssociative(x.command, y.command, z.command);
    UnionAssociative(x.args, y.args, z.args);
    PortsAssociative(x.ports, y.ports, z.ports);
    EnvsAssociative(x.env, y.env, z.env);
    MountsAssociative(x.volumeMounts, y.volumeMounts, z.volumeMounts);
    DevicesAssociative(x.volumeDevices, y.volumeDevices, z.volumeDevices);
    ProbeAssociative(x.livenessProbe, y.livenessProbe, z.livenessProbe);
    ProbeAssociative(x.readinessProbe, y.readinessProbe, z.readinessProbe);
    ProbeAssociative(x.startupProbe, y.startupProbe, z.startupProbe);
  }

  /** Laying overrides on one after the other equals merging the overrides first. */
  lemma ContainersAssociative(a: seq<Container>, b: seq<Container>, c: seq<Container>)
    requires MountsKeepKeys(a, b) && MountsKeepKeys(b, c)
    ensures MergeContainers(MergeContainers(a, b), c) == MergeContainers(a, MergeContainers(b, c))
  {
    hide MergeContainer, IndexBy;
    ContainerKeepsName(a, b);
    ContainerKeepsName(b, c);
    var A, B, C := IndexBy(a, ContainerName), IndexBy(b, ContainerName), IndexBy(c, ContainerName);
    forall k | k in A && k in B && k in C
      ensures MergeContainer(MergeContainer(A[k], B[k]), C[k]) == MergeContainer(A[k], MergeContainer(B[k], C[k]))
    {
      ContainerAssociative(A[k], B[k], C[k]);
    }
    MergeAssociative(a, b, c, ContainerName, MergeContainer);
  }

  // ---------------------------------------------------------------- reapplication

  /** An environment entry that gives a value and a reference at once. */
  predicate BothSet(e: EnvVar) { e.value != "" && e.valueFrom.Some? }

  /** Every entry of the override that gives both has a default entry to be combined with. */
  ghost predicate EnvSettled(original: seq<EnvVar>, override: seq<EnvVar>) {
    forall k | k in IndexBy(override, EnvName) && BothSet(IndexBy(override, EnvName)[k]) ::
        k in IndexBy(original, EnvName)
  }

  lemma EnvsReapplyIff(a: seq<EnvVar>, c: seq<EnvVar>)
    ensures MergeEnvs(MergeEnvs(a, c), c) == MergeEnvs(a, c) <==> EnvSettled(a, c)
  {
    EnvKeepsName(a, c);
    EnvKeepsName(MergeEnvs(a, c), c);
    ReapplyIff(a, c, EnvName, MergeEnv);
  }

  lemma PortsReapply(a: seq<ContainerPort>, c: seq<ContainerPort>)
    ensures MergePorts(MergePorts(a, c), c) == MergePorts(a, c)
  {
    PortKeepsName(a, c);
    PortKeepsName(MergePorts(a, c), c);
    ReapplyIff(a, c, PortName, MergePort);
  }

  lemma DevicesReapply(a: seq<VolumeDevice>, c: seq<VolumeDevice>)
    ensures MergeDevices(MergeDevices(a, c), c) == MergeDevices(a, c)
  {
    DeviceKeepsName(a, c);
    DeviceKeepsName(MergeDevices(a, c), c);
    ReapplyIff(a, c, DeviceName, MergeDevice);
  }

  lemma MountsReapply(a: seq<VolumeMount>, c: seq<VolumeMount>)
    requires KeepsKey(a, c, MountKey, MergeMount)
    ensures MergeMounts(MergeMounts(a, c), c) == MergeMounts(a, c)
  {
    hide IndexBy, KeepsKey, MountKey;
    MergedMountsKeyed(a, c);
    ReapplyIff(a, c, MountKey, MergeMount);
  }

  /** One container laid over another twice: only the environment can still move. */
  lemma ContainerReapplyIff(d: Container, c: Container)
    requires KeepsKey(d.volumeMounts, c.volumeMounts, MountKey, MergeMount)
    ensures MergeContainer(MergeContainer(d, c), c) == MergeContainer(d, c) <==> EnvSettled(d.env, c.env)
  {
    hide MergeEnvs, MergePorts, MergeMounts, MergeDevices, KeepsKey;
    UnionIdempotent(d.command, c.command);
    UnionIdempotent(d.args, c.args);
    PortsReapply(d.ports, c.ports);
    EnvsReapplyIff(d.env, c.env);
    MountsReapply(d.volumeMounts, c.volumeMounts);
    DevicesReapply(d.volumeDevices, c.volumeDevices);
  }

  /** A container whose lists are already in the shape a merge leaves them in. */
  ghost predicate Normal(c: Container) {
    && Ascending(KeysOf(c.ports, PortName))
    && Ascending(KeysOf(c.env, EnvName))
    && (forall i | 0 <= i < |c.env| :: !BothSet(c.env[i]))
    && Ascending(KeysOf(c.volumeMounts, MountKey))
    && Ascending(KeysOf(c.volumeDevices, DeviceName))
  }

  lemma ListsSelfIff(c: Container)
    ensures MergePorts(c.ports, c.ports) == c.ports <==> Ascending(KeysOf(c.ports, PortName))
    ensures MergeEnvs(c.env, c.env) == c.env
        <==> Ascending(KeysOf(c.env, EnvName)) && forall i | 0 <= i < |c.env| :: !BothSet(c.env[i])
    ensures MergeMounts(c.volumeMounts, c.volumeMounts) == c.volumeMounts
        <==> Ascending(KeysOf(c.volumeMounts, MountKey))
    ensures MergeDevices(c.volumeDevices, c.volumeDevices) == c.volumeDevices
        <==> Ascending(KeysOf(c.volumeDevices, DeviceName))
  {
    PortKeepsName(c.ports, c.ports);
    SelfMergeIff(c.ports, PortName, MergePort);
    EnvKeepsName(c.env, c.env);
    SelfMergeIff(c.env, EnvName, MergeEnv);
    SelfMountsKeyed(c.volumeMounts);
    SelfMergeIff(c.volumeMounts, MountKey, MergeMount);
    DeviceKeepsName(c.volumeDevices, c.volumeDevices);
    SelfMergeIff(c.volumeDevices, DeviceName, MergeDevice);
  }

  lemma ContainerSelfIff(c: Container)
    ensures MergeContainer(c, c) == c <==> Normal(c)
  {
    hide MergeEnvs, MergePorts, MergeMounts, MergeDevices;
    UnionIdempotent(c.command, c.command);
    UnionIdempotent(c.args, c.args);
    ListsSelfIff(c);
  }

  /** What a caller can check on the two lists before merging. */
  ghost predicate ReapplyIsSafe(a: seq<Container>, c: seq<Container>) {
    var A, C := IndexBy(a, ContainerName), IndexBy(c, ContainerName);
    forall k | k in C :: if k in A then EnvSettled(A[k].env, C[k].env) else Normal(C[k])
  }

  lemma EntrySafeIff(a: seq<Container>, c: seq<Container>, k: string)
    requires MountsKeepKeys(a, c) && k in IndexBy(c, ContainerName)
    ensures var A, C := IndexBy(a, ContainerName), IndexBy(c, ContainerName);
      (if k in A then MergeContainer(MergeContainer(A[k], C[k]), C[k]) == MergeContainer(A[k], C[k])
       else MergeContainer(C[k], C[k]) == C[k])
      <==> if k in A then EnvSettled(A[k].env, C[k].env) else Normal(C[k])
  {
    hide MergeContainer, EnvSettled, Normal, IndexBy;
    var A, C := IndexBy(a, ContainerName), IndexBy(c, ContainerName);
    if k in A {
      ContainerReapplyIff(A[k], C[k]);
    } else {
      ContainerSelfIff(C[k]);
    }
  }

  /** Applying an override a second time changes nothing exactly when every container of it is safe. */
  lemma ContainersReapplyIff(a: seq<Container>, c: seq<Container>)
    requires MountsKeepKeys(a, c)
    ensures MergeContainers(MergeContainers(a, c), c) == MergeContainers(a, c) <==> ReapplyIsSafe(a, c)
  {
    hide MergeContainer, MountsKeepKeys, EnvSettled, Normal, IndexBy, KeepsKey;
    ContainerKeepsName(a, c);
    ContainerKeepsName(MergeContainers(a, c), c);
    ReapplyIff(a, c, ContainerName, MergeContainer);
    forall k | k in IndexBy(c, ContainerName) { EntrySafeIff(a, c, k); }
  }

  lemma MergedEnvHasOverride(d: seq<EnvVar>, c: seq<EnvVar>)
    ensures EnvSettled(MergeEnvs(d, c), c)
    ensures EnvSettled(c, c)
  {
    EnvKeepsName(d, c);
    IndexMerge(d, c, EnvName, MergeEnv);
  }

  lemma EntryStabilises(a: seq<Container>, c: seq<Container>, k: string)
    requires MountsKeepKeys(a, c) && k in IndexBy(c, ContainerName)
    ensures var once, C := IndexBy(MergeContainers(a, c), ContainerName), IndexBy(c, ContainerName);
      k in once && MergeContainer(MergeContainer(once[k], C[k]), C[k]) == MergeContainer(once[k], C[k])
  {
    hide EnvSettled, IndexBy, MergeMounts, MergePorts, MergeDevices, KeepsKey;
    var A, C, O := IndexBy(a, ContainerName), IndexBy(c, ContainerName), IndexBy(MergeContainers(a, c), ContainerName);
    assert O == MergeMaps(A, C, MergeContainer) by {
      ContainerKeepsName(a, c);
      IndexMerge(a, c, ContainerName, MergeContainer);
    }
    if k in A {
      MergedMountsKeyed(A[k].volumeMounts, C[k].volumeMounts);
      MergedEnvHasOverride(A[k].env, C[k].env);
    } else {
      SelfMountsKeyed(C[k].volumeMounts);
      MergedEnvHasOverride([], C[k].env);
    }
    ContainerReapplyIff(O[k], C[k]);
  }

  /** The third application of an override equals the second, whatever the override. */
  lemma ContainersStabilise(a: seq<Container>, c: seq<Container>)
    requires MountsKeepKeys(a, c)
    ensures var twice := MergeContainers(MergeContainers(a, c), c);
      MergeContainers(twice, c) == twice
  {
    hide MergeContainer, MountsKeepKeys, IndexBy, KeepsKey;
    var once := MergeContainers(a, c);
    ContainerKeepsName(once, c);
    ContainerKeepsName(MergeContainers(once, c), c);
    forall k | k in IndexBy(c, ContainerName) { EntryStabilises(a, c, k); }
    ReapplyIff(once, c, ContainerName, MergeContainer);
  }

  /** Added by the override, a container whose only variable has both a value and a reference is not at rest. */
  lemma ReapplyCanMove(c: Container, e: EnvVar)
    requires c.env == [e] && BothSet(e)
    ensures MergeContainers(MergeContainers([], [c]), [c]) != MergeContainers([], [c])
  {
    hide MergeContainers, MergeContainer, MountsKeepKeys;
    NothingToKeep([c]);
    ContainersReapplyIff([], [c]);
    assert [c][..0] == [];
    assert IndexBy([c], ContainerName) == map[c.name := c];
    assert c.name in IndexBy([c], ContainerName) && c.name !in IndexBy([], ContainerName);
    assert BothSet(c.env[0]);
  }

  lemma NothingToKeep(b: seq<Container>)
    ensures MountsKeepKeys([], b)
  {
  }
}
