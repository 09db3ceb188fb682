/** What a merge does to every single field, told without the merge: what the override sets wins, the rest is kept. */
module OverrideWins {
  import opened Text
  import opened Sorting
  import opened KeyedMerge
  import opened MergeLaws
  import opened StringUnion
  import opened PodModel
  import opened ContainerLaws
  import opened ContainerMerge
  import opened OrderIndependence
  import opened AliasMerge
  import opened ClaimMerge
  import opened VolumeMerge
  import opened VolumeLaws

  // ---------------------------------------------------------------- one field

  predicate WinsString(d: string, o: string, c: string) { (o != "" ==> c == o) && (o == "" ==> c == d) }

  predicate WinsInt(d: int, o: int, c: int) { (o != 0 ==> c == o) && (o == 0 ==> c == d) }

  predicate WinsBool(d: bool, o: bool, c: bool) { (o ==> c) && (!o ==> c == d) }

  predicate WinsSome<T(==)>(d: Option<T>, o: Option<T>, c: Option<T>) { (o.Some? ==> c == o) && (o.None? ==> c == d) }

  /** The default's strings first and unchanged, then those of the override that are missing, each once. */
  ghost predicate WinsStrings(d: seq<string>, o: seq<string>, c: seq<string>) {
    && d <= c
    && (forall x :: x in c <==> x in d || x in o)
    && (forall i, j | 0 <= i < j < |c| && |d| <= j :: c[i] != c[j])
  }

  // ---------------------------------------------------------------- one entry of a list

  /** An environment entry keeps one form: the override's reference, else its value, else what was there. */
  predicate EnvWins(d: EnvVar, o: EnvVar, c: EnvVar) {
    && c.name == d.name
    && (o.valueFrom.Some? ==> c.valueFrom == o.valueFrom && c.value == "")
    && (o.valueFrom.None? && o.value != "" ==> c.value == o.value && c.valueFrom.None?)
    && (o.valueFrom.None? && o.value == "" ==> c == d)
  }

  predicate PortWins(d: ContainerPort, o: ContainerPort, c: ContainerPort) {
    && WinsString(d.name, o.name, c.name) && WinsInt(d.containerPort, o.containerPort, c.containerPort)
    && WinsInt(d.hostPort, o.hostPort, c.hostPort) && WinsString(d.protocol, o.protocol, c.protocol)
    && WinsString(d.hostIP, o.hostIP, c.hostIP)
  }

  predicate MountWins(d: VolumeMount, o: VolumeMount, c: VolumeMount) {
    && WinsString(d.name, o.name, c.name) && WinsBool(d.readOnly, o.readOnly, c.readOnly)
    && WinsString(d.mountPath, o.mountPath, c.mountPath) && WinsString(d.subPath, o.subPath, c.subPath)
    && WinsSome(d.mountPropagation, o.mountPropagation, c.mountPropagation)
    && WinsString(d.subPathExpr, o.subPathExpr, c.subPathExpr)
  }

  predicate DeviceWins(d: VolumeDevice, o: VolumeDevice, c: VolumeDevice) {
    WinsString(d.name, o.name, c.name) && WinsString(d.devicePath, o.devicePath, c.devicePath)
  }

  /** A toleration is replaced whole. */
  predicate TolerationWins(d: Toleration, o: Toleration, c: Toleration) { c == o }

  predicate ResourcesWin(d: Resources, o: Resources, c: Resources) {
    WinsSome(d.limits, o.limits, c.limits) && WinsSome(d.requests, o.requests, c.requests)
  }

  ghost predicate ClaimWins(d: Claim, o: Claim, c: Claim) {
    && WinsStrings(d.accessModes, o.accessModes, c.accessModes)
    && c.name == d.name && c.metadata == d.metadata
    && WinsString(d.namespace, o.namespace, c.namespace) && WinsSome(d.volumeMode, o.volumeMode, c.volumeMode)
    && WinsSome(d.storageClassName, o.storageClassName, c.storageClassName)
    && WinsSome(d.selector, o.selector, c.selector) && ResourcesWin(d.resources, o.resources, c.resources)
    && WinsSome(d.dataSource, o.dataSource, c.dataSource)
  }

  // ---------------------------------------------------------------- parts of a container

  predicate ProbeWins(d: Option<Probe>, o: Option<Probe>, c: Option<Probe>) {
    && (o.None? ==> c == d)
    && (d.None? ==> c == o)
    && (d.Some? && o.Some? ==>
          && c.Some?
          && var p, q, r := d.value, o.value, c.value;
             && WinsSome(p.exec, q.exec, r.exec) && WinsSome(p.httpGet, q.httpGet, r.httpGet)
             && WinsSome(p.tcpSocket, q.tcpSocket, r.tcpSocket)
             && WinsInt(p.initialDelaySeconds, q.initialDelaySeconds, r.initialDelaySeconds)
             && WinsInt(p.timeoutSeconds, q.timeoutSeconds, r.timeoutSeconds)
             && WinsInt(p.periodSeconds, q.periodSeconds, r.periodSeconds)
             && WinsInt(p.successThreshold, q.successThreshold, r.successThreshold)
             && WinsInt(p.failureThreshold, q.failureThreshold, r.failureThreshold))
  }

  predicate LifecycleWins(d: Option<Lifecycle>, o: Option<Lifecycle>, c: Option<Lifecycle>) {
    && (o.None? ==> c == d)
    && (d.None? ==> c == o)
    && (d.Some? && o.Some? ==>
          && c.Some? && WinsSome(d.value.postStart, o.value.postStart, c.value.postStart)
          && WinsSome(d.value.preStop, o.value.preStop, c.value.preStop))
  }

  predicate SecurityWins(d: Option<SecurityContext>, o: Option<SecurityContext>, c: Option<SecurityContext>) {
    && (o.None? ==> c == d)
    && (d.None? ==> c == o)
    && (d.Some? && o.Some? ==>
          && c.Some?
          && var p, q, r := d.value, o.value, c.value;
             && WinsSome(p.capabilities, q.capabilities, r.capabilities)
             && WinsSome(p.privileged, q.privileged, r.privileged)
             && WinsSome(p.seLinuxOptions, q.seLinuxOptions, r.seLinuxOptions)
             && WinsSome(p.windowsOptions, q.windowsOptions, r.windowsOptions)
             && WinsSome(p.runAsUser, q.runAsUser, r.runAsUser) && WinsSome(p.runAsGroup, q.runAsGroup, r.runAsGroup)
             && WinsSome(p.runAsNonRoot, q.runAsNonRoot, r.runAsNonRoot)
             && WinsSome(p.readOnlyRootFilesystem, q.readOnlyRootFilesystem, r.readOnlyRootFilesystem)
             && WinsSome(p.allowPrivilegeEscalation, q.allowPrivilegeEscalation, r.allowPrivilegeEscalation)
             && WinsSome(p.procMount, q.procMount, r.procMount))
  }

  // ---------------------------------------------------------------- lists

  /**
    Strictly sorted, the keys of both lists and no others; an entry of one list only is that list's last of its key,
    one of both is what `wins` allows of the two last ones.
   */
  ghost predicate ListWins<T>(a: seq<T>, b: seq<T>, c: seq<T>, key: T -> string, wins: (T, T, T) -> bool) {
    && Ascending(KeysOf(c, key))
    && (forall k :: k in KeysOf(c, key) <==> WithKey(a, key, k) != [] || WithKey(b, key, k) != [])
    && (forall i | 0 <= i < |c| ::
          var fromA, fromB := WithKey(a, key, key(c[i])), WithKey(b, key, key(c[i]));
          && (fromB == [] ==> fromA != [] && c[i] == Last(fromA))
          && (fromA == [] ==> fromB != [] && c[i] == Last(fromB))
          && (fromA != [] && fromB != [] ==> wins(Last(fromA), Last(fromB), c[i])))
  }

  lemma MergedListWins<T(!new)>(a: seq<T>, b: seq<T>, key: T -> string, combine: (T, T) -> T, wins: (T, T, T) -> bool)
    requires KeepsKey(a, b, key, combine)
    requires forall x, y :: wins(x, y, combine(x, y))
    ensures ListWins(a, b, MergeBy(a, b, key, combine), key, wins)
  {
    hide WithKey;
    MergeContents(a, b, key, combine);
    var c := MergeBy(a, b, key, combine);
    assert forall i | 0 <= i < |c| :: IsMergeOf(c[i], a, b, key, combine) && KeysOf(c, key)[i] == key(c[i]);
  }

  lemma EnvsWin(a: seq<EnvVar>, b: seq<EnvVar>)
    ensures ListWins(a, b, MergeEnvs(a, b), EnvName, EnvWins)
  {
    EnvKeepsName(a, b);
    MergedListWins(a, b, EnvName, MergeEnv, EnvWins);
  }

  lemma PortsWin(a: seq<ContainerPort>, b: seq<ContainerPort>)
    ensures ListWins(a, b, MergePorts(a, b), PortName, PortWins)
  {
    PortKeepsName(a, b);
    MergedListWins(a, b, PortName, MergePort, PortWins);
  }

  lemma DevicesWin(a: seq<VolumeDevice>, b: seq<VolumeDevice>)
    ensures ListWins(a, b, MergeDevices(a, b), DeviceName, DeviceWins)
  {
    DeviceKeepsName(a, b);
    MergedListWins(a, b, DeviceName, MergeDevice, DeviceWins);
  }

  lemma MountsWin(a: seq<VolumeMount>, b: seq<VolumeMount>)
    requires KeepsKey(a, b, MountKey, MergeMount)
    ensures ListWins(a, b, MergeMounts(a, b), MountKey, MountWins)
  {
    MergedListWins(a, b, MountKey, MergeMount, MountWins);
  }

  lemma TolerationsWin(a: seq<Toleration>, b: seq<Toleration>)
    ensures ListWins(a, b, MergeTolerations(a, b), TolerationKey, TolerationWins)
  {
    TolerationsKeepKey(a, b);
    MergedListWins(a, b, TolerationKey, Replace, TolerationWins);
  }

  lemma ClaimWinsOne(d: Claim, o: Claim)
    ensures ClaimWins(d, o, MergeClaim(d, o))
  {
    UnionContents(d.accessModes, o.accessModes);
  }

  lemma ClaimsWin(a: seq<Claim>, b: seq<Claim>)
    ensures ListWins(a, b, MergeClaims(a, b), ClaimName, ClaimWins)
  {
    hide ClaimWins;
    ClaimsKeepName(a, b);
    forall x, y ensures ClaimWins(x, y, MergeClaim(x, y)) { ClaimWinsOne(x, y); }
    MergedListWins(a, b, ClaimName, MergeClaim, ClaimWins);
  }

  // ---------------------------------------------------------------- containers

  /** What stands for key `k` of the two lists: the last entry of the one that has it, or what `wins` allows of both. */
  ghost predicate StandsFor<T>(a: seq<T>, b: seq<T>, key: T -> string, wins: (T, T, T) -> bool, k: string, x: T) {
    var fromA, fromB := WithKey(a, key, k), WithKey(b, key, k);
    && (fromB == [] ==> fromA != [] && x == Last(fromA))
    && (fromA == [] ==> fromB != [] && x == Last(fromB))
    && (fromA != [] && fromB != [] ==> wins(Last(fromA), Last(fromB), x))
  }

  /** Every key of the two lists is stood for, and nothing else is in the list; with collisions only this is certain. */
  ghost predicate MountsHeld(a: seq<VolumeMount>, b: seq<VolumeMount>, c: seq<VolumeMount>) {
    && (forall k | WithKey(a, MountKey, k) != [] || WithKey(b, MountKey, k) != [] ::
          exists x :: x in c && StandsFor(a, b, MountKey, MountWins, k, x))
    && (forall x | x in c :: exists k :: StandsFor(a, b, MountKey, MountWins, k, x))
  }

  /** Field by field: what the override sets wins, what it leaves unset is kept, and `envFrom` is never touched. */
  ghost predicate ContainerWins(d: Container, o: Container, c: Container) {
    && WinsString(d.name, o.name, c.name) && WinsString(d.image, o.image, c.image)
    && WinsStrings(d.command, o.command, c.command) && WinsStrings(d.args, o.args, c.args)
    && WinsString(d.workingDir, o.workingDir, c.workingDir)
    && ListWins(d.ports, o.ports, c.ports, PortName, PortWins)
    && c.envFrom == d.envFrom
    && ListWins(d.env, o.env, c.env, EnvName, EnvWins)
    && ResourcesWin(d.resources, o.resources, c.resources)
    && MountsHeld(d.volumeMounts, o.volumeMounts, c.volumeMounts)
    && (KeepsKey(d.volumeMounts, o.volumeMounts, MountKey, MergeMount) ==>
          ListWins(d.volumeMounts, o.volumeMounts, c.volumeMounts, MountKey, MountWins))
    && ListWins(d.volumeDevices, o.volumeDevices, c.volumeDevices, DeviceName, DeviceWins)
    && ProbeWins(d.livenessProbe, o.livenessProbe, c.livenessProbe)
    && ProbeWins(d.readinessProbe, o.readinessProbe, c.readinessProbe)
    && ProbeWins(d.startupProbe, o.startupProbe, c.startupProbe)
    && LifecycleWins(d.lifecycle, o.lifecycle, c.lifecycle)
    && WinsString(d.terminationMessagePath, o.terminationMessagePath, c.terminationMessagePath)
    && WinsString(d.terminationMessagePolicy, o.terminationMessagePolicy, c.terminationMessagePolicy)
    && WinsString(d.imagePullPolicy, o.imagePullPolicy, c.imagePullPolicy)
    && SecurityWins(d.securityContext, o.securityContext, c.securityContext)
    && WinsBool(d.stdin, o.stdin, c.stdin) && WinsBool(d.stdinOnce, o.stdinOnce, c.stdinOnce)
    && WinsBool(d.tty, o.tty, c.tty)
  }

  lemma MountStands(a: seq<VolumeMount>, b: seq<VolumeMount>, k: string)
    requires k in MountMap(a, b)
    ensures StandsFor(a, b, MountKey, MountWins, k, MountMap(a, b)[k])
  {
    hide MountKey, WithKey;
    IndexLast(a, MountKey, k);
    IndexLast(b, MountKey, k);
  }

  lemma ProducedMounts(a: seq<VolumeMount>, b: seq<VolumeMount>, c: seq<VolumeMount>)
    requires Produces(MountMap(a, b), MountKey, c)
    ensures MountsHeld(a, b, c)
  {
    hide StandsFor, MountKey, WithKey, SliceStable, MountMap;
    var m := MountMap(a, b);
    var ks :| Enumerates(ks, m.Keys) && c == SliceStable(Along(ks, m), MountKey);
    SliceStableSorts(Along(ks, m), MountKey);
    SameMembers(c, Along(ks, m));
    forall k | WithKey(a, MountKey, k) != [] || WithKey(b, MountKey, k) != []
      ensures exists x :: x in c && StandsFor(a, b, MountKey, MountWins, k, x)
    {
      MountKeys(a, b, k);
      MountStands(a, b, k);
      var i :| 0 <= i < |ks| && ks[i] == k;
      assert Along(ks, m)[i] in c;
    }
    forall x | x in c ensures exists k :: StandsFor(a, b, MountKey, MountWins, k, x) {
      var i :| 0 <= i < |ks| && Along(ks, m)[i] == x;
      assert ks[i] in ks;
      MountStands(a, b, ks[i]);
    }
  }

  lemma MountKeys(a: seq<VolumeMount>, b: seq<VolumeMount>, k: string)
    ensures k in MountMap(a, b) <==> WithKey(a, MountKey, k) != [] || WithKey(b, MountKey, k) != []
  {
    IndexLast(a, MountKey, k);
    IndexLast(b, MountKey, k);
  }

  lemma ScalarsWin(d: Container, o: Container)
    ensures var c := MergeContainer(d, o);
      && WinsString(d.name, o.name, c.name) && WinsString(d.image, o.image, c.image)
      && WinsString(d.workingDir, o.workingDir, c.workingDir) && c.envFrom == d.envFrom
      && ResourcesWin(d.resources, o.resources, c.resources)
      && LifecycleWins(d.lifecycle, o.lifecycle, c.lifecycle)
      && WinsString(d.terminationMessagePath, o.terminationMessagePath, c.terminationMessagePath)
      && WinsString(d.terminationMessagePolicy, o.terminationMessagePolicy, c.terminationMessagePolicy)
      && WinsString(d.imagePullPolicy, o.imagePullPolicy, c.imagePullPolicy)
      && WinsBool(d.stdin, o.stdin, c.stdin) && WinsBool(d.stdinOnce, o.stdinOnce, c.stdinOnce)
      && WinsBool(d.tty, o.tty, c.tty)
  {
    hide MergeEnvs, MergePorts, MergeMounts, MergeDevices, MergeProbe, MergeSecurity, Union;
  }

  lemma PartsWin(d: Container, o: Container)
    ensures ProbeWins(d.livenessProbe, o.livenessProbe, MergeProbe(d.livenessProbe, o.livenessProbe))
    ensures ProbeWins(d.readinessProbe, o.readinessProbe, MergeProbe(d.readinessProbe, o.readinessProbe))
    ensures ProbeWins(d.startupProbe, o.startupProbe, MergeProbe(d.startupProbe, o.startupProbe))
    ensures SecurityWins(d.securityContext, o.securityContext, MergeSecurity(d.securityContext, o.securityContext))
    ensures WinsStrings(d.command, o.command, Union(d.command, o.command))
    ensures WinsStrings(d.args, o.args, Union(d.args, o.args))
  {
    OneProbeWins(d.livenessProbe, o.livenessProbe);
    OneProbeWins(d.readinessProbe, o.readinessProbe);
    OneProbeWins(d.startupProbe, o.startupProbe);
    OneSecurityWins(d.securityContext, o.securityContext);
    hide ProbeWins, SecurityWins;
    UnionContents(d.command, o.command);
    UnionContents(d.args, o.args);
  }

  lemma OneProbeWins(d: Option<Probe>, o: Option<Probe>)
    ensures ProbeWins(d, o, MergeProbe(d, o))
  {
  }

  lemma OneSecurityWins(d: Option<SecurityContext>, o: Option<SecurityContext>)
    ensures SecurityWins(d, o, MergeSecurity(d, o))
  {
  }

  /** Every possible outcome of merging two containers has the override's fields where it sets them. */
  lemma ContainerOutcomeWins(d: Container, o: Container, c: Container)
    requires ContainerOutcome(d, o, c)
    ensures ContainerWins(d, o, c)
  {
    hide MergeEnvs, MergePorts, MergeMounts, MergeDevices, MergeProbe, MergeSecurity, MergeLifecycle, MergeResources;
    hide Union, ListWins, MountsHeld, ProbeWins, SecurityWins, LifecycleWins, ResourcesWin, WinsStrings, KeepsKey;
    hide Produces, MountMap;
    ScalarsWin(d, o);
    PartsWin(d, o);
    EnvsWin(d.env, o.env);
    PortsWin(d.ports, o.ports);
    DevicesWin(d.volumeDevices, o.volumeDevices);
    ProducedMounts(d.volumeMounts, o.volumeMounts, c.volumeMounts);
    if KeepsKey(d.volumeMounts, o.volumeMounts, MountKey, MergeMount) {
      KeyedOutcome(d, o, c);
      MountsWin(d.volumeMounts, o.volumeMounts);
    }
  }

  /** The same of whole lists, for every order of every range. */
  lemma ContainersWin(a: seq<Container>, b: seq<Container>, merged: seq<Container>)
    requires ContainersOutcome(a, b, merged)
    ensures ListWins(a, b, merged, ContainerName, ContainerWins)
  {
    hide ContainerOutcome, ContainerWins, IndexBy, WithKey;
    var A, B := IndexBy(a, ContainerName), IndexBy(b, ContainerName);
    var ks := KeysOf(merged, ContainerName);
    forall k ensures k in ks <==> WithKey(a, ContainerName, k) != [] || WithKey(b, ContainerName, k) != [] {
      IndexLast(a, ContainerName, k);
      IndexLast(b, ContainerName, k);
    }
    forall i | 0 <= i < |merged|
      ensures StandsFor(a, b, ContainerName, ContainerWins, ContainerName(merged[i]), merged[i])
    {
      var k := ContainerName(merged[i]);
      assert ks[i] == k && EntryOutcome(A, B, k, merged[i]);
      IndexLast(a, ContainerName, k);
      IndexLast(b, ContainerName, k);
      if k in A && k in B {
        ContainerOutcomeWins(A[k], B[k], merged[i]);
      }
    }
  }

  // ---------------------------------------------------------------- host aliases

  ghost predicate NamedBy(aliases: seq<HostAlias>, name: string) {
    exists i :: 0 <= i < |aliases| && name in aliases[i].hostnames
  }

  /**
    What is listed for one address: the names of the last default, or else of the first override, first and unchanged;
    then the names of every override of this address that are missing, each once; and no other name.
   */
  ghost predicate NamesWin(fromA: seq<HostAlias>, fromB: seq<HostAlias>, names: seq<string>)
    requires fromA != [] || fromB != []
  {
    var first := if fromA == [] then fromB[0].hostnames else Last(fromA).hostnames;
    && first <= names
    && (forall x :: x in names <==> x in first || NamedBy(fromB, x))
    && (forall i, j | 0 <= i < j < |names| && |first| <= j :: names[i] != names[j])
  }

  lemma {:induction false} GatherNames(names: seq<string>, aliases: seq<HostAlias>)
    ensures var r := Gather(names, aliases);
      && names <= r && (forall x :: x in r <==> x in names || NamedBy(aliases, x))
      && (forall i, j | 0 <= i < j < |r| && |names| <= j :: r[i] != r[j])
  {
    if aliases != [] {
      var front, last := aliases[..|aliases| - 1], aliases[|aliases| - 1];
      GatherNames(names, front);
      UnionContents(Gather(names, front), last.hostnames);
      forall x ensures NamedBy(aliases, x) <==> NamedBy(front, x) || x in last.hostnames {
        NamedNext(aliases, x);
      }
    }
  }

  lemma NamedNext(aliases: seq<HostAlias>, x: string)
    requires aliases != []
    ensures NamedBy(aliases, x) <==> NamedBy(aliases[..|aliases| - 1], x) || x in aliases[|aliases| - 1].hostnames
  {
    var front := aliases[..|aliases| - 1];
    if NamedBy(front, x) {
      var i :| 0 <= i < |front| && x in front[i].hostnames;
      assert x in aliases[i].hostnames;
    }
    if NamedBy(aliases, x) {
      var i :| 0 <= i < |aliases| && x in aliases[i].hostnames;
      assert i < |front| ==> x in front[i].hostnames;
    }
  }

  lemma FoldedNames(aliases: seq<HostAlias>)
    requires aliases != []
    ensures var r := Folded(aliases);
      && aliases[0].hostnames <= r && (forall x :: x in r <==> NamedBy(aliases, x))
      && (forall i, j | 0 <= i < j < |r| && |aliases[0].hostnames| <= j :: r[i] != r[j])
  {
    var first, rest := aliases[..1], aliases[1..];
    assert aliases == first + rest;
    FoldedConcat(first, rest);
    GatherNames(first[0].hostnames, rest);
    forall x ensures NamedBy(aliases, x) <==> x in first[0].hostnames || NamedBy(rest, x) {
      if NamedBy(rest, x) {
        var i :| 0 <= i < |rest| && x in rest[i].hostnames;
        assert x in aliases[i + 1].hostnames;
      }
      if NamedBy(aliases, x) {
        var i :| 0 <= i < |aliases| && x in aliases[i].hostnames;
        assert i > 0 ==> x in rest[i - 1].hostnames;
      }
    }
  }

  /** The whole list of aliases: sorted by address, the addresses of both lists and no others. */
  ghost predicate AliasListWins(a: seq<HostAlias>, b: seq<HostAlias>, r: seq<HostAlias>) {
    && Ascending(KeysOf(r, AliasIP))
    && (forall ip :: ip in KeysOf(r, AliasIP) <==> WithKey(a, AliasIP, ip) != [] || WithKey(b, AliasIP, ip) != [])
    && (forall i | 0 <= i < |r| ::
          var fromA, fromB := WithKey(a, AliasIP, r[i].ip), WithKey(b, AliasIP, r[i].ip);
          (fromA != [] || fromB != []) && NamesWin(fromA, fromB, r[i].hostnames))
  }

  lemma AliasesWin(a: seq<HostAlias>, b: seq<HostAlias>)
    ensures AliasListWins(a, b, MergeAliases(a, b))
  {
    hide Folded, Gather, WithKey, MergeAliases, NamesWin;
    AliasesOutcome(a, b);
    var r := MergeAliases(a, b);
    forall i | 0 <= i < |r|
      ensures var fromA, fromB := WithKey(a, AliasIP, r[i].ip), WithKey(b, AliasIP, r[i].ip);
              (fromA != [] || fromB != []) && NamesWin(fromA, fromB, r[i].hostnames)
    {
      GatheredWin(WithKey(a, AliasIP, r[i].ip), WithKey(b, AliasIP, r[i].ip));
    }
  }

  lemma GatheredWin(fromA: seq<HostAlias>, fromB: seq<HostAlias>)
    requires fromA != [] || fromB != []
    ensures NamesWin(fromA, fromB, if fromA == [] then Folded(fromB) else Gather(Last(fromA).hostnames, fromB))
  {
    if fromA == [] {
      FoldedNames(fromB);
      assert forall x | x in fromB[0].hostnames :: NamedBy(fromB, x);
    } else {
      GatherNames(Last(fromA).hostnames, fromB);
    }
  }

  // ---------------------------------------------------------------- volumes

  /** Item by item: the keys of both, and under a key of both the override's path and mode where it sets them. */
  ghost predicate ItemsWin(d: map<string, KeyToPath>, o: map<string, KeyToPath>, c: map<string, KeyToPath>) {
    && c.Keys == d.Keys + o.Keys
    && (forall k | k in d && k !in o :: c[k] == d[k])
    && (forall k | k in o && k !in d :: c[k] == o[k])
    && (forall k | k in d && k in o ::
          && c[k].key == k && WinsString(d[k].path, o[k].path, c[k].path) && WinsSome(d[k].mode, o[k].mode, c[k].mode))
  }

  ghost predicate FilesWin(d: FilesValue, o: FilesValue, c: FilesValue) {
    WinsString(d.name, o.name, c.name) && ItemsWin(d.items, o.items, c.items)
    && WinsSome(d.defaultMode, o.defaultMode, c.defaultMode)
  }

  /**
    With a source of one kind on both sides that source is merged and nothing else changes; a secret keeps its own
    `optional`. Otherwise the override is taken whole, under the default's name.
   */
  ghost predicate VolumeWins(d: VolumeValue, o: VolumeValue, c: VolumeValue) {
    if d.emptyDir.Some? && o.emptyDir.Some? then
      && c.emptyDir.Some? && c == d.(emptyDir := c.emptyDir)
      && WinsString(d.emptyDir.value.medium, o.emptyDir.value.medium, c.emptyDir.value.medium)
      && WinsSome(d.emptyDir.value.sizeLimit, o.emptyDir.value.sizeLimit, c.emptyDir.value.sizeLimit)
    else if d.secret.Some? && o.secret.Some? then
      && c.secret.Some? && c == d.(secret := c.secret)
      && FilesWin(d.secret.value, o.secret.value, c.secret.value)
      && c.secret.value.optional == d.secret.value.optional
    else if d.configMap.Some? && o.configMap.Some? then
      && c.configMap.Some? && c == d.(configMap := c.configMap)
      && FilesWin(d.configMap.value, o.configMap.value, c.configMap.value)
      && WinsSome(d.configMap.value.optional, o.configMap.value.optional, c.configMap.value.optional)
    else c == o.(name := d.name)
  }

  /**
    Sorted by name; under a name of the defaults one volume per default, each with the last override of that name laid
    over it if there is one; under any other name the overrides, duplicates included, as they are.
   */
  ghost predicate VolumesWin(ds: seq<VolumeValue>, os: seq<VolumeValue>, r: seq<VolumeValue>) {
    && SortedBy(r, ValueName)
    && forall k :: VolumesOfName(WithKey(ds, ValueName, k), WithKey(os, ValueName, k), WithKey(r, ValueName, k))
  }

  ghost predicate VolumesOfName(ds: seq<VolumeValue>, os: seq<VolumeValue>, r: seq<VolumeValue>) {
    if ds == [] then r == os
    else
      && |r| == |ds|
      && forall i | 0 <= i < |ds| :: if os == [] then r[i] == ds[i] else VolumeWins(ds[i], Last(os), r[i])
  }

  lemma ItemsWinOne(d: map<string, KeyToPath>, o: map<string, KeyToPath>)
    requires WellKeyed(d, ItemKey) && WellKeyed(o, ItemKey)
    ensures ItemsWin(d, o, MergeMaps(d, o, MergeKeyToPath))
  {
    forall k | k in d && k in o ensures MergeKeyToPath(d[k], o[k]).key == k {
      assert ItemKey(d[k]) == k == ItemKey(o[k]);
    }
    assert forall k | k in d && k in o :: ItemKey(d[k]) == ItemKey(o[k]);
  }

  lemma VolumeWinsOne(d: VolumeValue, o: VolumeValue)
    requires ItemsWellKeyed(d) && ItemsWellKeyed(o)
    ensures VolumeWins(d, o, MergeVolume(d, o))
  {
    hide ItemsWin;
    if d.secret.Some? && o.secret.Some? { ItemsWinOne(d.secret.value.items, o.secret.value.items); }
    if d.configMap.Some? && o.configMap.Some? { ItemsWinOne(d.configMap.value.items, o.configMap.value.items); }
  }

  lemma {:induction false} WithKeyOverlaid(ds: seq<VolumeValue>, overrides: map<string, VolumeValue>, k: string)
    ensures WithKey(OverlaidAll(ds, overrides), ValueName, k) == OverlaidAll(WithKey(ds, ValueName, k), overrides)
  {
    hide MergeFiles;
    if ds != [] {
      var front, last := ds[..|ds| - 1], ds[|ds| - 1];
      WithKeyOverlaid(front, overrides, k);
      var all := OverlaidAll(ds, overrides);
      assert all[..|ds| - 1] == OverlaidAll(front, overrides);
      OverlaidName(last, overrides);
    }
  }

  lemma OverlaidName(d: VolumeValue, overrides: map<string, VolumeValue>)
    ensures Overlaid(d, overrides).name == d.name
  {
    hide MergeFiles;
  }

  lemma {:induction false} WithKeyNew(os: seq<VolumeValue>, known: set<string>, k: string)
    ensures WithKey(NewOnes(os, ValueName, known), ValueName, k) == if k in known then [] else WithKey(os, ValueName, k)
  {
    if os != [] {
      var front, last := os[..|os| - 1], os[|os| - 1];
      WithKeyNew(front, known, k);
      var more := if ValueName(last) in known then [] else [last];
      WithKeyConcat(NewOnes(front, ValueName, known), more, ValueName, k);
      assert more != [] ==> more[..0] == [];
    }
  }

  /** Told of the values merged, name by name. */
  lemma MergedVolumesWin(ds: seq<VolumeValue>, os: seq<VolumeValue>)
    requires AllItemsWellKeyed(ds) && AllItemsWellKeyed(os)
    ensures VolumesWin(ds, os, MergeVolumes(ds, os))
  {
    hide WithKey, VolumeWins, Overlaid, IndexBy, NewOnes, ItemsWellKeyed;
    var O, known := IndexBy(os, ValueName), IndexBy(ds, ValueName).Keys;
    var all := OverlaidAll(ds, O) + NewOnes(os, ValueName, known);
    SliceStableSorts(all, ValueName);
    forall k ensures VolumesOfName(WithKey(ds, ValueName, k), WithKey(os, ValueName, k),
                                   WithKey(MergeVolumes(ds, os), ValueName, k))
    {
      WithKeyConcat(OverlaidAll(ds, O), NewOnes(os, ValueName, known), ValueName, k);
      WithKeyOverlaid(ds, O, k);
      WithKeyNew(os, known, k);
      IndexLast(ds, ValueName, k);
      NamedVolumes(ds, os, k);
    }
  }

  lemma NamedVolumes(ds: seq<VolumeValue>, os: seq<VolumeValue>, k: string)
    requires AllItemsWellKeyed(ds) && AllItemsWellKeyed(os)
    ensures var own := WithKey(ds, ValueName, k);
      own != [] ==> VolumesOfName(own, WithKey(os, ValueName, k), OverlaidAll(own, IndexBy(os, ValueName)))
    ensures WithKey(ds, ValueName, k) == [] ==> OverlaidAll(WithKey(ds, ValueName, k), IndexBy(os, ValueName)) == []
  {
    hide WithKey, VolumeWins, MergeVolume, IndexBy, ItemsWellKeyed;
    var own, O := WithKey(ds, ValueName, k), IndexBy(os, ValueName);
    IndexLast(os, ValueName, k);
    IndexSound(os, ValueName);
    forall i | 0 <= i < |own|
      ensures own[i].name == k && (k in O ==> VolumeWins(own[i], O[k], Overlaid(own[i], O)))
    {
      WithKeyMember(ds, k, own[i]);
      var j :| 0 <= j < |ds| && ds[j] == own[i];
      if k in O {
        var l :| 0 <= l < |os| && os[l] == O[k];
        VolumeWinsOne(own[i], O[k]);
      }
    }
  }

  lemma {:induction false} WithKeyMember(ds: seq<VolumeValue>, k: string, x: VolumeValue)
    requires x in WithKey(ds, ValueName, k)
    ensures x in ds && x.name == k
  {
    if x !in WithKey(ds[..|ds| - 1], ValueName, k) {
      assert x == ds[|ds| - 1];
    } else {
      WithKeyMember(ds[..|ds| - 1], k, x);
    }
  }
}
