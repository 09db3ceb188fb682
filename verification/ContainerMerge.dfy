/** The loops of the container merge, each proved against the merge it computes. */
module ContainerMerge {
  import opened Text
  import opened Sorting
  import opened KeyedMerge
  import opened MergeLaws
  import opened StringUnion
  import opened PodModel
  import opened ContainerLaws

  method Envs(original: seq<EnvVar>, override: seq<EnvVar>) returns (merged: seq<EnvVar>)
    ensures merged == MergeEnvs(original, override)
  {
    EnvKeepsName(original, override);
    merged := MergeByKey(original, override, EnvName, MergeEnv);
  }

  method VolumeDevices(original: seq<VolumeDevice>, override: seq<VolumeDevice>) returns (merged: seq<VolumeDevice>)
    ensures merged == MergeDevices(original, override)
  {
    DeviceKeepsName(original, override);
    merged := MergeByKey(original, override, DeviceName, MergeDevice);
  }

  ghost function MountMap(original: seq<VolumeMount>, override: seq<VolumeMount>): map<string, VolumeMount> {
    MergeMaps(IndexBy(original, MountKey), IndexBy(override, MountKey), MergeMount)
  }

  /** With colliding keys the order of the range may show, so the result is only one of the possible ones. */
  method VolumeMounts(original: seq<VolumeMount>, override: seq<VolumeMount>) returns (merged: seq<VolumeMount>)
    ensures Produces(MountMap(original, override), MountKey, merged)
    ensures KeepsKey(original, override, MountKey, MergeMount) ==> merged == MergeMounts(original, override)
  {
    merged := MergeByKey(original, override, MountKey, MergeMount);
  }

  /** Exactly when the result of `VolumeMounts` is the same for every order of the range. */
  lemma MountsOrderIndependentIff(original: seq<VolumeMount>, override: seq<VolumeMount>)
    ensures var m := MountMap(original, override);
      (forall r, s | Produces(m, MountKey, r) && Produces(m, MountKey, s) :: r == s) <==> KeyDecidesValue(m, MountKey)
  {
    OrderIndependentIff(MountMap(original, override), MountKey);
  }

  /** Two default mounts and one override, all legal strings, for which the order of the range shows. */
  lemma MountOrderCanShow()
    ensures var path := VolumeMount("_", false, "a", "", None, "");
            var kept := VolumeMount("_", true, "_a", "", None, "");
            var over := VolumeMount("", false, "_a", "", None, "");
      !(forall r, s | Produces(MountMap([path, kept], [over]), MountKey, r)
                   && Produces(MountMap([path, kept], [over]), MountKey, s) :: r == s)
  {
    var path := VolumeMount("_", false, "a", "", None, "");
    var kept := VolumeMount("_", true, "_a", "", None, "");
    var over := VolumeMount("", false, "_a", "", None, "");
    var m := MountMap([path, kept], [over]);
    assert [path, kept][..1] == [path] && [path][..0] == [] && [over][..0] == [];
    assert MountKey(path) == "__a_" && MountKey(kept) == "___a_" && MountKey(over) == "__a_";
    assert IndexBy([path], MountKey) == map["__a_" := path];
    assert IndexBy([path, kept], MountKey) == map["__a_" := path, "___a_" := kept];
    assert IndexBy([over], MountKey) == map["__a_" := over];
    assert m["__a_"] == VolumeMount("_", false, "_a", "", None, "");
    assert m["___a_"] == kept;
    assert MountKey(m["__a_"]) == MountKey(m["___a_"]);
    MountsOrderIndependentIff([path, kept], [over]);
  }

  /** Goes through the default ports first, then through the override ports that are new. */
  method ContainerPortSlicesByName(defaultPorts: seq<ContainerPort>, overridePorts: seq<ContainerPort>)
    returns (mergedPorts: seq<ContainerPort>)
    ensures mergedPorts == MergePorts(defaultPorts, overridePorts)
  {
    hide *;
    var defaultPortMap := BuildIndex(defaultPorts, PortName);
    var overridePortsMap := BuildIndex(overridePorts, PortName);
    ghost var m := MergeMaps(defaultPortMap, overridePortsMap, MergePort);
    MergeMapsAt(defaultPortMap, overridePortsMap, MergePort);
    mergedPorts := [];
    ghost var ks: seq<string>, done: set<string> := [], {};
    CollectNone(m);
    var pending := defaultPortMap.Keys;
    while pending != {}
      invariant pending <= defaultPortMap.Keys
      invariant forall k :: k in done <==> k in defaultPortMap && k !in pending
      invariant Collected(mergedPorts, ks, done, m)
      decreases |pending|
    {
      var portName :| portName in pending;
      CollectMore(mergedPorts, ks, done, m, portName);
      pending, done, ks := pending - {portName}, done + {portName}, ks + [portName];
      if portName in overridePortsMap {
        mergedPorts := mergedPorts + [MergePort(defaultPortMap[portName], overridePortsMap[portName])];
      } else {
        mergedPorts := mergedPorts + [defaultPortMap[portName]];
      }
    }
    pending := overridePortsMap.Keys;
    while pending != {}
      invariant pending <= overridePortsMap.Keys
      invariant forall k :: k in done <==> k in defaultPortMap || (k in overridePortsMap && k !in pending)
      invariant Collected(mergedPorts, ks, done, m)
      decreases |pending|
    {
      var portName :| portName in pending;
      if portName !in defaultPortMap {
        CollectMore(mergedPorts, ks, done, m, portName);
        mergedPorts, ks, done := mergedPorts + [overridePortsMap[portName]], ks + [portName], done + {portName};
      }
      pending := pending - {portName};
    }
    assert done == m.Keys;
    SortCollectedPorts(defaultPorts, overridePorts, mergedPorts, ks);
    mergedPorts := SliceStable(mergedPorts, PortName);
  }

  lemma SortCollectedPorts(defaultPorts: seq<ContainerPort>, overridePorts: seq<ContainerPort>,
                           ports: seq<ContainerPort>, ks: seq<string>)
    requires var m := MergeMaps(IndexBy(defaultPorts, PortName), IndexBy(overridePorts, PortName), MergePort);
      Collected(ports, ks, m.Keys, m)
    ensures SliceStable(ports, PortName) == MergePorts(defaultPorts, overridePorts)
  {
    PortKeepsName(defaultPorts, overridePorts);
    SortedRangeIsListing(ks, MergeMaps(IndexBy(defaultPorts, PortName), IndexBy(overridePorts, PortName), MergePort),
        PortName);
  }

  // ---------------------------------------------------------------- tolerations

  datatype Toleration = Toleration(key: string, rest: Blob)

  function TolerationKey(t: Toleration): string { t.key }

  function Replace(original: Toleration, override: Toleration): Toleration { override }

  ghost function MergeTolerations(original: seq<Toleration>, override: seq<Toleration>): seq<Toleration> {
    MergeBy(original, override, TolerationKey, Replace)
  }

  /** The override entries are written straight into the index of the defaults. */
  method Tolerations(defaultTolerations: seq<Toleration>, overrideTolerations: seq<Toleration>)
    returns (merged: seq<Toleration>)
    ensures merged == MergeTolerations(defaultTolerations, overrideTolerations)
  {
    var defaultMap := BuildIndex(defaultTolerations, TolerationKey);
    ghost var D := defaultMap;
    for i := 0 to |overrideTolerations|
      invariant defaultMap == MergeMaps(D, IndexBy(overrideTolerations[..i], TolerationKey), Replace)
    {
      assert overrideTolerations[..i + 1][..i] == overrideTolerations[..i];
      defaultMap := defaultMap[overrideTolerations[i].key := overrideTolerations[i]];
    }
    assert overrideTolerations[..|overrideTolerations|] == overrideTolerations;
    KeepsKeyAlways(defaultTolerations, overrideTolerations, TolerationKey, Replace);
    merged := SortRange(defaultMap, TolerationKey);
  }

  lemma TolerationsKeepKey(a: seq<Toleration>, b: seq<Toleration>)
    ensures KeepsKey(a, b, TolerationKey, Replace)
  {
    KeepsKeyAlways(a, b, TolerationKey, Replace);
  }

  // ---------------------------------------------------------------- containers

  /** `c` is what merging the two containers may give; only colliding mounts leave a choice. */
  ghost predicate ContainerOutcome(original: Container, override: Container, c: Container) {
    && c == MergeContainer(original, override).(volumeMounts := c.volumeMounts)
    && Produces(MountMap(original.volumeMounts, override.volumeMounts), MountKey, c.volumeMounts)
  }

  method OverlayContainer(defaultContainer: Container, overrideContainer: Container) returns (merged: Container)
    ensures ContainerOutcome(defaultContainer, overrideContainer, merged)
  {
    hide MergeEnvs, MergePorts, MergeDevices, Produces, MergeMounts;
    merged := defaultContainer.(
      name := OrString(defaultContainer.name, overrideContainer.name),
      image := OrString(defaultContainer.image, overrideContainer.image),
      workingDir := OrString(defaultContainer.workingDir, overrideContainer.workingDir));
    var command := StringSlices(defaultContainer.command, overrideContainer.command);
    var args := StringSlices(defaultContainer.args, overrideContainer.args);
    var ports := ContainerPortSlicesByName(defaultContainer.ports, overrideContainer.ports);
    var env := Envs(defaultContainer.env, overrideContainer.env);
    var mounts := VolumeMounts(defaultContainer.volumeMounts, overrideContainer.volumeMounts);
    var devices := VolumeDevices(defaultContainer.volumeDevices, overrideContainer.volumeDevices);
    merged := merged.(
      command := command, args := args, ports := ports, env := env,
      resources := MergeResources(defaultContainer.resources, overrideContainer.resources),
      volumeMounts := mounts, volumeDevices := devices,
      livenessProbe := MergeProbe(defaultContainer.livenessProbe, overrideContainer.livenessProbe),
      readinessProbe := MergeProbe(defaultContainer.readinessProbe, overrideContainer.readinessProbe),
      startupProbe := MergeProbe(defaultContainer.startupProbe, overrideContainer.startupProbe),
      lifecycle := MergeLifecycle(defaultContainer.lifecycle, overrideContainer.lifecycle));
    merged := merged.(
      terminationMessagePath := OrString(defaultContainer.terminationMessagePath,
          overrideContainer.terminationMessagePath),
      terminationMessagePolicy := OrString(defaultContainer.terminationMessagePolicy,
          overrideContainer.terminationMessagePolicy),
      imagePullPolicy := OrString(defaultContainer.imagePullPolicy, overrideContainer.imagePullPolicy),
      securityContext := MergeSecurity(defaultContainer.securityContext, overrideContainer.securityContext),
      stdin := defaultContainer.stdin || overrideContainer.stdin,
      stdinOnce := defaultContainer.stdinOnce || overrideContainer.stdinOnce,
      tty := defaultContainer.tty || overrideContainer.tty);
  }

  /** What may stand under key `k` of the merged map. */
  ghost predicate EntryOutcome(D: map<string, Container>, O: map<string, Container>, k: string, c: Container) {
    if k !in O then k in D && c == D[k]
    else if k !in D then c == O[k]
    else ContainerOutcome(D[k], O[k], c)
  }

  /** One container per name of either list, in order of names, each merged from the last duplicates. */
  ghost predicate ContainersOutcome(original: seq<Container>, override: seq<Container>, merged: seq<Container>) {
    var D, O := IndexBy(original, ContainerName), IndexBy(override, ContainerName);
    && KeysOf(merged, ContainerName) == SortedKeys(D.Keys + O.Keys)
    && forall i | 0 <= i < |merged| :: EntryOutcome(D, O, merged[i].name, merged[i])
  }

  method Containers(defaultContainers: seq<Container>, overrideContainers: seq<Container>)
    returns (mergedContainers: seq<Container>)
    ensures ContainersOutcome(defaultContainers, overrideContainers, mergedContainers)
    ensures MountsKeepKeys(defaultContainers, overrideContainers)
            ==> mergedContainers == MergeContainers(defaultContainers, overrideContainers)
  {
    hide EntryOutcome, MergeContainers, MountsKeepKeys, Produces, ContainersOutcome;
    var originalMap := BuildIndex(defaultContainers, ContainerName);
    var overrideMap := BuildIndex(overrideContainers, ContainerName);
    var mergedContainerMap := OverlayContainers(originalMap, overrideMap);
    IndexSound(defaultContainers, ContainerName);
    IndexSound(overrideContainers, ContainerName);
    OutcomesKeepNames(originalMap, overrideMap, mergedContainerMap);
    mergedContainers := SortRange(mergedContainerMap, ContainerName);
    OutcomesListed(defaultContainers, overrideContainers, mergedContainerMap);
    if MountsKeepKeys(defaultContainers, overrideContainers) {
      PureOutcome(defaultContainers, overrideContainers, mergedContainers);
    }
  }

  /** The overrides outside `pending` are merged in. */
  ghost predicate OverlaidBut(D: map<string, Container>, O: map<string, Container>, pending: set<string>,
      m: map<string, Container>) {
    && m.Keys == D.Keys + (O.Keys - pending)
    && forall k | k in m && k !in pending :: EntryOutcome(D, O, k, m[k])
  }

  lemma NoneOverlaid(D: map<string, Container>, O: map<string, Container>)
    ensures OverlaidBut(D, O, O.Keys, D)
  {
    hide ContainerOutcome;
  }

  lemma OneMoreOverlaid(D: map<string, Container>, O: map<string, Container>, pending: set<string>,
                        m: map<string, Container>, k: string, c: Container)
    requires OverlaidBut(D, O, pending, m) && k in pending && k in O && EntryOutcome(D, O, k, c)
    ensures OverlaidBut(D, O, pending - {k}, m[k := c])
  {
    hide EntryOutcome;
  }

  method OverlayContainers(originalMap: map<string, Container>, overrideMap: map<string, Container>)
    returns (merged: map<string, Container>)
    ensures merged.Keys == originalMap.Keys + overrideMap.Keys
    ensures forall k | k in merged :: EntryOutcome(originalMap, overrideMap, k, merged[k])
  {
    hide EntryOutcome, OverlaidBut;
    merged := CopyMap(originalMap);
    NoneOverlaid(originalMap, overrideMap);
    var pending := overrideMap.Keys;
    while pending != {}
      invariant pending <= overrideMap.Keys
      invariant OverlaidBut(originalMap, overrideMap, pending, merged)
      decreases |pending|
    {
      var k :| k in pending;
      var c := MergedOrNew(originalMap, overrideMap, k);
      OneMoreOverlaid(originalMap, overrideMap, pending, merged, k, c);
      pending, merged := pending - {k}, merged[k := c];
    }
    AllOverlaid(originalMap, overrideMap, merged);
  }

  lemma AllOverlaid(D: map<string, Container>, O: map<string, Container>, m: map<string, Container>)
    requires OverlaidBut(D, O, {}, m)
    ensures m.Keys == D.Keys + O.Keys
    ensures forall k | k in m :: EntryOutcome(D, O, k, m[k])
  {
    hide EntryOutcome;
  }

  method MergedOrNew(originalMap: map<string, Container>, overrideMap: map<string, Container>, k: string)
    returns (c: Container)
    requires k in overrideMap
    ensures EntryOutcome(originalMap, overrideMap, k, c)
  {
    hide ContainerOutcome;
    if k in originalMap {
      c := OverlayContainer(originalMap[k], overrideMap[k]);
    } else {
      c := overrideMap[k];
    }
  }

  lemma OutcomesKeepNames(D: map<string, Container>, O: map<string, Container>, m: map<string, Container>)
    requires WellKeyed(D, ContainerName) && WellKeyed(O, ContainerName)
    requires forall k | k in m :: EntryOutcome(D, O, k, m[k])
    ensures WellKeyed(m, ContainerName)
  {
    hide MergeEnvs, MergePorts, MergeDevices, Produces, MergeMounts;
  }

  lemma OutcomesListed(original: seq<Container>, override: seq<Container>, m: map<string, Container>)
    requires var D, O := IndexBy(original, ContainerName), IndexBy(override, ContainerName);
      && m.Keys == D.Keys + O.Keys
      && WellKeyed(m, ContainerName)
      && forall k | k in m :: EntryOutcome(D, O, k, m[k])
    ensures ContainersOutcome(original, override, Listing(m))
  {
    hide EntryOutcome;
    var ks, l := SortedKeys(m.Keys), Listing(m);
    forall i | 0 <= i < |l| ensures ks[i] in m && l[i].name == ks[i] {
      assert ks[i] in ks;
      assert ContainerName(l[i]) == ks[i];
    }
    assert KeysOf(l, ContainerName) == ks;
  }

  lemma KeyedOutcome(d: Container, o: Container, c: Container)
    requires KeepsKey(d.volumeMounts, o.volumeMounts, MountKey, MergeMount) && ContainerOutcome(d, o, c)
    ensures c == MergeContainer(d, o)
  {
    hide MergeEnvs, MergePorts, MergeDevices, Produces;
    WellKeyedOutcome(MountMap(d.volumeMounts, o.volumeMounts), MountKey, c.volumeMounts);
  }

  lemma PureEntry(a: seq<Container>, b: seq<Container>, r: seq<Container>, i: nat)
    requires MountsKeepKeys(a, b) && ContainersOutcome(a, b, r) && i < |r|
    ensures |r| == |MergeContainers(a, b)| && r[i] == MergeContainers(a, b)[i]
  {
    hide ContainerOutcome, MergeContainer, KeepsKey, IndexBy;
    var A, B := IndexBy(a, ContainerName), IndexBy(b, ContainerName);
    var k := ContainerName(r[i]);
    assert KeysOf(r, ContainerName)[i] == k == SortedKeys(A.Keys + B.Keys)[i];
    assert MergeMaps(A, B, MergeContainer).Keys == A.Keys + B.Keys;
    assert EntryOutcome(A, B, k, r[i]);
    if k in A && k in B {
      KeyedOutcome(A[k], B[k], r[i]);
    }
  }

  lemma PureOutcome(a: seq<Container>, b: seq<Container>, r: seq<Container>)
    requires MountsKeepKeys(a, b) && ContainersOutcome(a, b, r)
    ensures r == MergeContainers(a, b)
  {
    forall i | 0 <= i < |r| ensures |r| == |MergeContainers(a, b)| && r[i] == MergeContainers(a, b)[i] {
      PureEntry(a, b, r, i);
    }
    assert |MergeContainers(a, b)| == |KeysOf(r, ContainerName)|;
  }

  /** For any two lists there is an outcome: the one the loops find when they range in key order. */
  lemma SomeOutcome(original: seq<Container>, override: seq<Container>) returns (merged: seq<Container>)
    ensures ContainersOutcome(original, override, merged)
  {
    hide ContainerOutcome;
    var D, O := IndexBy(original, ContainerName), IndexBy(override, ContainerName);
    IndexSound(original, ContainerName);
    IndexSound(override, ContainerName);
    var m := map k | k in D.Keys + O.Keys :: if k !in O then D[k] else if k !in D then O[k] else InKeyOrder(D[k], O[k]);
    forall k | k in m ensures EntryOutcome(D, O, k, m[k]) {
      if k in D && k in O { KeyOrderIsOutcome(D[k], O[k]); }
    }
    OutcomesKeepNames(D, O, m);
    OutcomesListed(original, override, m);
    merged := Listing(m);
  }

  ghost function InKeyOrder(d: Container, o: Container): Container {
    var mounts := MountMap(d.volumeMounts, o.volumeMounts);
    MergeContainer(d, o).(volumeMounts := SliceStable(Listing(mounts), MountKey))
  }

  lemma KeyOrderIsOutcome(d: Container, o: Container)
    ensures ContainerOutcome(d, o, InKeyOrder(d, o))
  {
    hide MergeEnvs, MergePorts, MergeDevices;
    SortedKeysEnumerate(MountMap(d.volumeMounts, o.volumeMounts).Keys);
  }
}
