/** `PodSpec`: every merge of a pod put together. */
module PodSpecMerge {
  import opened Text
  import opened Sorting
  import opened KeyedMerge
  import opened MergeLaws
  import opened StringUnion
  import opened PodModel
  import opened ContainerLaws
  import opened ContainerMerge
  import opened OverrideWins
  import opened AliasMerge
  import opened VolumeMerge
  import opened VolumeLaws
  import opened VolumeAssociativity
  import opened VolumeSharing
  import opened VolumesInPlace

  datatype Affinity = Affinity(node: Option<Blob>, pod: Option<Blob>, podAnti: Option<Blob>)

  datatype DNSConfig = DNSConfig(nameservers: seq<string>, searches: seq<string>, options: Option<Blob>)

  /** The fields that are either kept or replaced whole. */
  datatype Settings = Settings(
    restartPolicy: string, dnsPolicy: string, serviceAccountName: string, deprecatedServiceAccount: string,
    nodeName: string, hostname: string, subdomain: string, schedulerName: string, priorityClassName: string,
    hostNetwork: bool, hostPID: bool,
    terminationGracePeriodSeconds: Option<Blob>, activeDeadlineSeconds: Option<Blob>,
    automountServiceAccountToken: Option<Blob>, shareProcessNamespace: Option<Blob>, securityContext: Option<Blob>,
    imagePullSecrets: Option<Blob>, priority: Option<Blob>, readinessGates: Option<Blob>,
    runtimeClassName: Option<Blob>, enableServiceLinks: Option<Blob>, preemptionPolicy: Option<Blob>,
        overhead: Option<Blob>)

  /** `V` is a volume with its pointers, or the value behind it. */
  datatype PodSpec<V> = PodSpec(
    volumes: seq<V>, containers: seq<Container>, initContainers: seq<Container>,
    nodeSelector: Selector, affinity: Option<Affinity>, tolerations: seq<Toleration>,
    hostAliases: seq<HostAlias>, dnsConfig: Option<DNSConfig>, settings: Settings)

  type Selector = Option<map<string, string>>

  function MergeSelector(original: Selector, override: Selector): Selector {
    if override.None? then original
    else Some((if original.None? then map[] else original.value) + override.value)
  }

  function MergeAffinity(original: Option<Affinity>, override: Option<Affinity>): Option<Affinity> {
    if override.None? then original
    else if original.None? then override
    else Some(Affinity(OrSome(original.value.node, override.value.node), OrSome(original.value.pod, override.value.pod),
                       OrSome(original.value.podAnti, override.value.podAnti)))
  }

  function MergeDNS(original: Option<DNSConfig>, override: Option<DNSConfig>): Option<DNSConfig> {
    if override.None? then original
    else if original.None? then override
    else Some(DNSConfig(Union(original.value.nameservers, override.value.nameservers),
                        Union(original.value.searches, override.value.searches),
                        OrSome(original.value.options, override.value.options)))
  }

  function MergeSettings(d: Settings, o: Settings): Settings {
    Settings(
      OrString(d.restartPolicy, o.restartPolicy), OrString(d.dnsPolicy, o.dnsPolicy),
      OrString(d.serviceAccountName, o.serviceAccountName),
      OrString(d.deprecatedServiceAccount, o.deprecatedServiceAccount), OrString(d.nodeName, o.nodeName),
      OrString(d.hostname, o.hostname), OrString(d.subdomain, o.subdomain),
      OrString(d.schedulerName, o.schedulerName), OrString(d.priorityClassName, o.priorityClassName),
      d.hostNetwork || o.hostNetwork, d.hostPID || o.hostPID,
      OrSome(d.terminationGracePeriodSeconds, o.terminationGracePeriodSeconds),
      OrSome(d.activeDeadlineSeconds, o.activeDeadlineSeconds),
      OrSome(d.automountServiceAccountToken, o.automountServiceAccountToken),
      OrSome(d.shareProcessNamespace, o.shareProcessNamespace), OrSome(d.securityContext, o.securityContext),
      OrSome(d.imagePullSecrets, o.imagePullSecrets), OrSome(d.priority, o.priority),
      OrSome(d.readinessGates, o.readinessGates), OrSome(d.runtimeClassName, o.runtimeClassName),
      OrSome(d.enableServiceLinks, o.enableServiceLinks), OrSome(d.preemptionPolicy, o.preemptionPolicy),
      OrSome(d.overhead, o.overhead))
  }

  ghost function MergePodSpec(original: PodSpec<VolumeValue>, override: PodSpec<VolumeValue>): PodSpec<VolumeValue> {
    PodSpec(
      MergeVolumes(original.volumes, override.volumes),
      MergeContainers(original.containers, override.containers),
      MergeContainers(original.initContainers, override.initContainers),
      MergeSelector(original.nodeSelector, override.nodeSelector),
      MergeAffinity(original.affinity, override.affinity),
      MergeTolerations(original.tolerations, override.tolerations),
      MergeAliases(original.hostAliases, override.hostAliases),
      MergeDNS(original.dnsConfig, override.dnsConfig),
      MergeSettings(original.settings, override.settings))
  }

  function WithValues(p: PodSpec<Volume>, values: seq<VolumeValue>): PodSpec<VolumeValue> {
    PodSpec(values, p.containers, p.initContainers, p.nodeSelector, p.affinity, p.tolerations, p.hostAliases,
        p.dnsConfig, p.settings)
  }

  /** A pod as its values show it. */
  ghost function View(p: PodSpec<Volume>): PodSpec<VolumeValue>
    reads AllSources(p.volumes)
  {
    WithValues(p, Values(p.volumes))
  }

  // ---------------------------------------------------------------- every field, told without the merge

  /** Key by key: the override's value where it has the key, the default's elsewhere, and no other key. */
  ghost predicate SelectorWins(d: Selector, o: Selector, c: Selector) {
    && (o.None? ==> c == d)
    && (o.Some? ==>
          && c.Some?
          && (forall k | k in o.value :: k in c.value && c.value[k] == o.value[k])
          && (forall k | k !in o.value :: k in c.value <==> d.Some? && k in d.value)
          && (forall k | k in c.value && k !in o.value :: c.value[k] == d.value[k]))
  }

  predicate AffinityWins(d: Option<Affinity>, o: Option<Affinity>, c: Option<Affinity>) {
    && (o.None? ==> c == d)
    && (d.None? ==> c == o)
    && (d.Some? && o.Some? ==>
          && c.Some? && WinsSome(d.value.node, o.value.node, c.value.node)
          && WinsSome(d.value.pod, o.value.pod, c.value.pod)
          && WinsSome(d.value.podAnti, o.value.podAnti, c.value.podAnti))
  }

  ghost predicate DNSWins(d: Option<DNSConfig>, o: Option<DNSConfig>, c: Option<DNSConfig>) {
    && (o.None? ==> c == d)
    && (d.None? ==> c == o)
    && (d.Some? && o.Some? ==>
          && c.Some? && WinsStrings(d.value.nameservers, o.value.nameservers, c.value.nameservers)
          && WinsStrings(d.value.searches, o.value.searches, c.value.searches)
          && WinsSome(d.value.options, o.value.options, c.value.options))
  }

  predicate SettingsWin(d: Settings, o: Settings, c: Settings) {
    && WinsString(d.restartPolicy, o.restartPolicy, c.restartPolicy)
    && WinsString(d.dnsPolicy, o.dnsPolicy, c.dnsPolicy)
    && WinsString(d.serviceAccountName, o.serviceAccountName, c.serviceAccountName)
    && WinsString(d.deprecatedServiceAccount, o.deprecatedServiceAccount, c.deprecatedServiceAccount)
    && WinsString(d.nodeName, o.nodeName, c.nodeName) && WinsString(d.hostname, o.hostname, c.hostname)
    && WinsString(d.subdomain, o.subdomain, c.subdomain)
    && WinsString(d.schedulerName, o.schedulerName, c.schedulerName)
    && WinsString(d.priorityClassName, o.priorityClassName, c.priorityClassName)
    && WinsBool(d.hostNetwork, o.hostNetwork, c.hostNetwork) && WinsBool(d.hostPID, o.hostPID, c.hostPID)
    && WinsSome(d.terminationGracePeriodSeconds, o.terminationGracePeriodSeconds, c.terminationGracePeriodSeconds)
    && WinsSome(d.activeDeadlineSeconds, o.activeDeadlineSeconds, c.activeDeadlineSeconds)
    && WinsSome(d.automountServiceAccountToken, o.automountServiceAccountToken, c.automountServiceAccountToken)
    && WinsSome(d.shareProcessNamespace, o.shareProcessNamespace, c.shareProcessNamespace)
    && WinsSome(d.securityContext, o.securityContext, c.securityContext)
    && WinsSome(d.imagePullSecrets, o.imagePullSecrets, c.imagePullSecrets)
    && WinsSome(d.priority, o.priority, c.priority)
    && WinsSome(d.readinessGates, o.readinessGates, c.readinessGates)
    && WinsSome(d.runtimeClassName, o.runtimeClassName, c.runtimeClassName)
    && WinsSome(d.enableServiceLinks, o.enableServiceLinks, c.enableServiceLinks)
    && WinsSome(d.preemptionPolicy, o.preemptionPolicy, c.preemptionPolicy)
    && WinsSome(d.overhead, o.overhead, c.overhead)
  }

  /** Every field of a merged pod but its volumes. */
  ghost predicate PodWins<V, W, X>(d: PodSpec<V>, o: PodSpec<W>, c: PodSpec<X>) {
    && ListWins(d.containers, o.containers, c.containers, ContainerName, ContainerWins)
    && ListWins(d.initContainers, o.initContainers, c.initContainers, ContainerName, ContainerWins)
    && SelectorWins(d.nodeSelector, o.nodeSelector, c.nodeSelector)
    && AffinityWins(d.affinity, o.affinity, c.affinity)
    && ListWins(d.tolerations, o.tolerations, c.tolerations, TolerationKey, TolerationWins)
    && AliasListWins(d.hostAliases, o.hostAliases, c.hostAliases)
    && DNSWins(d.dnsConfig, o.dnsConfig, c.dnsConfig)
    && SettingsWin(d.settings, o.settings, c.settings)
  }

  lemma SelectorIsWon(d: Selector, o: Selector)
    ensures SelectorWins(d, o, MergeSelector(d, o))
  {
  }

  lemma AffinityIsWon(d: Option<Affinity>, o: Option<Affinity>)
    ensures AffinityWins(d, o, MergeAffinity(d, o))
  {
  }

  lemma DNSIsWon(d: Option<DNSConfig>, o: Option<DNSConfig>)
    ensures DNSWins(d, o, MergeDNS(d, o))
  {
    if d.Some? && o.Some? {
      UnionContents(d.value.nameservers, o.value.nameservers);
      UnionContents(d.value.searches, o.value.searches);
    }
  }

  lemma SettingsAreWon(d: Settings, o: Settings)
    ensures SettingsWin(d, o, MergeSettings(d, o))
  {
  }

  /**
    Whatever order the ranges take, the pod returned has what the override sets, and the default's fields elsewhere.
   */
  lemma PodIsWon(original: PodSpec<Volume>, override: PodSpec<Volume>, merged: PodSpec<Volume>)
    requires ContainersOutcome(original.containers, override.containers, merged.containers)
    requires ContainersOutcome(original.initContainers, override.initContainers, merged.initContainers)
    requires merged == Rest(original, override, merged.containers, merged.initContainers).(volumes := merged.volumes)
    ensures PodWins(original, override, merged)
  {
    hide ContainersOutcome, ListWins, ContainerWins, AliasListWins, SelectorWins, AffinityWins, DNSWins, SettingsWin;
    hide MergeSelector, MergeAffinity, MergeTolerations, MergeAliases, MergeDNS, MergeSettings;
    ContainersWin(original.containers, override.containers, merged.containers);
    ContainersWin(original.initContainers, override.initContainers, merged.initContainers);
    SelectorIsWon(original.nodeSelector, override.nodeSelector);
    AffinityIsWon(original.affinity, override.affinity);
    TolerationsWin(original.tolerations, override.tolerations);
    AliasesWin(original.hostAliases, override.hostAliases);
    DNSIsWon(original.dnsConfig, override.dnsConfig);
    SettingsAreWon(original.settings, override.settings);
  }

  /** The mounts that meet in a merge of the two pods keep their keys. */
  ghost predicate PodsKeepKeys<V>(p: PodSpec<V>, q: PodSpec<V>) {
    MountsKeepKeys(p.containers, q.containers) && MountsKeepKeys(p.initContainers, q.initContainers)
  }

  /**
    Field by field; the volumes of `original` are written through on the way. Where sharing leaves the overrides in use
    alone, the pod is the merge of the pods as they were exactly when the sharers agree, its mounts keeping their keys.
   */
  method PodSpecs(original: PodSpec<Volume>, override: PodSpec<Volume>) returns (merged: PodSpec<Volume>)
    modifies AllSources(original.volumes)
    ensures merged.volumes == MergedPointers(original.volumes, override.volumes)
    ensures Values(original.volumes + override.volumes)
         == After(original.volumes, override.volumes, old(Values(original.volumes + override.volumes)),
             |original.volumes|)
    ensures OverridesStill(original.volumes, override.volumes) && PodsKeepKeys(original, override) ==>
      (SharersAgree(original.volumes, override.volumes, old(Values(original.volumes + override.volumes))) <==>
       View(merged) == MergePodSpec(old(View(original)), old(View(override))))
    ensures SafelyShared(original.volumes, override.volumes) ==>
      && Values(merged.volumes) == MergeVolumes(old(Values(original.volumes)), old(Values(override.volumes)))
      && Values(override.volumes) == old(Values(override.volumes))
      && (PodsKeepKeys(original, override) ==> View(merged) == MergePodSpec(old(View(original)), old(View(override))))
    ensures SafelyShared(original.volumes, override.volumes) && NewNamesOnce(original.volumes, override.volumes) ==>
      SafelyShared(merged.volumes, override.volumes)
    ensures ContainersOutcome(original.containers, override.containers, merged.containers)
    ensures ContainersOutcome(original.initContainers, override.initContainers, merged.initContainers)
    ensures PodWins(original, override, merged)
  {
    hide *;
    ghost var ds, os := Values(original.volumes), Values(override.volumes);
    ViewFields(original);
    ViewFields(override);
    var volumes := Volumes(original.volumes, override.volumes);
    merged := FieldsBeside(original, override, volumes);
    merged := merged.(volumes := volumes);
    PodIsWon(original, override, merged);
    if PodsKeepKeys(original, override) {
      PutTogether(ds, os, original, override, merged);
    }
  }

  /** The other fields, with what they leave alone. */
  method FieldsBeside(original: PodSpec<Volume>, override: PodSpec<Volume>, ghost volumes: seq<Volume>)
    returns (merged: PodSpec<Volume>)
    ensures ContainersOutcome(original.containers, override.containers, merged.containers)
    ensures ContainersOutcome(original.initContainers, override.initContainers, merged.initContainers)
    ensures PodsKeepKeys(original, override) ==>
      && merged.containers == MergeContainers(original.containers, override.containers)
      && merged.initContainers == MergeContainers(original.initContainers, override.initContainers)
    ensures merged == Rest(original, override, merged.containers, merged.initContainers)
    ensures Values(volumes) == old(Values(volumes)) && Values(override.volumes) == old(Values(override.volumes))
    ensures Values(original.volumes + override.volumes) == old(Values(original.volumes + override.volumes))
  {
    hide ContainersOutcome, PodsKeepKeys, MergeContainers, Rest, SecretValue, ConfigMapValue;
    merged := OtherFields(original, override);
  }

  /** The original with every field merged but the volumes, given what the containers become. */
  ghost function Rest(original: PodSpec<Volume>, override: PodSpec<Volume>, containers: seq<Container>,
                      initContainers: seq<Container>): PodSpec<Volume>
  {
    PodSpec(original.volumes, containers, initContainers,
            MergeSelector(original.nodeSelector, override.nodeSelector),
            MergeAffinity(original.affinity, override.affinity),
            MergeTolerations(original.tolerations, override.tolerations),
            MergeAliases(original.hostAliases, override.hostAliases),
            MergeDNS(original.dnsConfig, override.dnsConfig),
            MergeSettings(original.settings, override.settings))
  }

  lemma ViewFields(p: PodSpec<Volume>)
    ensures View(p) == WithValues(p, Values(p.volumes))
  {
  }

  /** A pod that has the merge in every field is the merge. */
  lemma PutTogether(ds: seq<VolumeValue>, os: seq<VolumeValue>, original: PodSpec<Volume>, override: PodSpec<Volume>,
                    merged: PodSpec<Volume>)
    requires merged.containers == MergeContainers(original.containers, override.containers)
    requires merged.initContainers == MergeContainers(original.initContainers, override.initContainers)
    requires merged == Rest(original, override, merged.containers, merged.initContainers).(volumes := merged.volumes)
    ensures View(merged) == MergePodSpec(WithValues(original, ds), WithValues(override, os)) <==>
            Values(merged.volumes) == MergeVolumes(ds, os)
  {
    hide MergeVolumes, MergeContainers, MergeTolerations, MergeAliases, MergeDNS, MergeSelector, MergeAffinity,
        MergeSettings;
  }

  /** Every field of the merge but the volumes. */
  method OtherFields(original: PodSpec<Volume>, override: PodSpec<Volume>) returns (merged: PodSpec<Volume>)
    ensures ContainersOutcome(original.containers, override.containers, merged.containers)
    ensures ContainersOutcome(original.initContainers, override.initContainers, merged.initContainers)
    ensures PodsKeepKeys(original, override) ==>
      && merged.containers == MergeContainers(original.containers, override.containers)
      && merged.initContainers == MergeContainers(original.initContainers, override.initContainers)
    ensures merged == Rest(original, override, merged.containers, merged.initContainers)
  {
    hide ContainersOutcome, MountsKeepKeys, MergeContainers, MergeSelector, MergeAffinity, MergeTolerations,
        MergeAliases;
    hide MergeDNS, MergeSettings;
    var containers := Containers(original.containers, override.containers);
    var initContainers := Containers(original.initContainers, override.initContainers);
    var tolerations := Tolerations(original.tolerations, override.tolerations);
    var hostAliases := HostAliases(original.hostAliases, override.hostAliases);
    var dnsConfig := PodDNSConfig(original.dnsConfig, override.dnsConfig);
    merged := original.(containers := containers, initContainers := initContainers,
                        nodeSelector := MergeSelector(original.nodeSelector, override.nodeSelector),
                        affinity := MergeAffinity(original.affinity, override.affinity),
                        tolerations := tolerations, hostAliases := hostAliases, dnsConfig := dnsConfig,
                        settings := MergeSettings(original.settings, override.settings));
  }

  method PodDNSConfig(original: Option<DNSConfig>, override: Option<DNSConfig>) returns (merged: Option<DNSConfig>)
    ensures merged == MergeDNS(original, override)
  {
    if override.None? {
      return original;
    }
    if original.None? {
      return override;
    }
    var nameservers := StringSlices(original.value.nameservers, override.value.nameservers);
    var searches := StringSlices(original.value.searches, override.value.searches);
    merged := Some(DNSConfig(nameservers, searches, OrSome(original.value.options, override.value.options)));
  }

  // ---------------------------------------------------------------- laws of the whole

  lemma TolerationsAssociative(a: seq<Toleration>, b: seq<Toleration>, c: seq<Toleration>)
    ensures MergeTolerations(MergeTolerations(a, b), c) == MergeTolerations(a, MergeTolerations(b, c))
  {
    TolerationsKeepKey(a, b);
    TolerationsKeepKey(b, c);
    MergeAssociative(a, b, c, TolerationKey, Replace);
  }

  lemma TolerationsReapply(a: seq<Toleration>, c: seq<Toleration>)
    ensures MergeTolerations(MergeTolerations(a, c), c) == MergeTolerations(a, c)
  {
    TolerationsKeepKey(a, c);
    TolerationsKeepKey(MergeTolerations(a, c), c);
    ReapplyIff(a, c, TolerationKey, Replace);
  }

  lemma DNSAssociative(x: Option<DNSConfig>, y: Option<DNSConfig>, z: Option<DNSConfig>)
    ensures MergeDNS(MergeDNS(x, y), z) == MergeDNS(x, MergeDNS(y, z))
  {
    if x.Some? && y.Some? && z.Some? {
      UnionAssociative(x.value.nameservers, y.value.nameservers, z.value.nameservers);
      UnionAssociative(x.value.searches, y.value.searches, z.value.searches);
    }
  }

  lemma DNSReapply(x: Option<DNSConfig>, y: Option<DNSConfig>)
    ensures MergeDNS(MergeDNS(x, y), y) == MergeDNS(x, y)
  {
    if y.Some? {
      UnionIdempotent(y.value.nameservers, y.value.nameservers);
      UnionIdempotent(y.value.searches, y.value.searches);
      if x.Some? {
        UnionIdempotent(x.value.nameservers, y.value.nameservers);
        UnionIdempotent(x.value.searches, y.value.searches);
      }
    }
  }

  /** Everything but the volumes associates, given faithful mounts and a middle pod with harmless aliases. */
  lemma PodSpecAssociative(p: PodSpec<VolumeValue>, q: PodSpec<VolumeValue>, r: PodSpec<VolumeValue>)
    requires PodsKeepKeys(p, q) && PodsKeepKeys(q, r)
    requires DuplicatesHarmless(q.hostAliases)
    ensures MergePodSpec(MergePodSpec(p, q), r).(volumes := []) == MergePodSpec(p, MergePodSpec(q, r)).(volumes := [])
  {
    hide MergeVolumes, MergeContainers, MergeTolerations, MergeAliases, MergeDNS, MountsKeepKeys, DuplicatesHarmless;
    ContainersAssociative(p.containers, q.containers, r.containers);
    ContainersAssociative(p.initContainers, q.initContainers, r.initContainers);
    TolerationsAssociative(p.tolerations, q.tolerations, r.tolerations);
    AliasesAssociate(p.hostAliases, q.hostAliases, r.hostAliases);
    DNSAssociative(p.dnsConfig, q.dnsConfig, r.dnsConfig);
    SelectorAssociative(p.nodeSelector, q.nodeSelector, r.nodeSelector);
  }

  /** With proper volumes whole pods associate, exactly when no middle volume of another kind takes anything away. */
  lemma PodSpecAssociativeIff(p: PodSpec<VolumeValue>, q: PodSpec<VolumeValue>, r: PodSpec<VolumeValue>)
    requires PodsKeepKeys(p, q) && PodsKeepKeys(q, r)
    requires DuplicatesHarmless(q.hostAliases)
    requires Proper(p.volumes) && Proper(q.volumes) && Proper(r.volumes)
    ensures MergePodSpec(MergePodSpec(p, q), r) == MergePodSpec(p, MergePodSpec(q, r))
        <==> VolumesAssociate(p.volumes, q.volumes, r.volumes)
  {
    hide MergeVolumes, MergeContainers, MergeTolerations, MergeAliases, MergeDNS, MountsKeepKeys, DuplicatesHarmless;
    hide Proper, VolumesAssociate, MergeSelector, MergeAffinity, MergeSettings;
    PodSpecAssociative(p, q, r);
    VolumesAssociativeIff(p.volumes, q.volumes, r.volumes);
    var left, right := MergePodSpec(MergePodSpec(p, q), r), MergePodSpec(p, MergePodSpec(q, r));
    assert left == left.(volumes := []).(volumes := left.volumes);
    assert right == right.(volumes := []).(volumes := right.volumes);
  }

  lemma SelectorAssociative(x: Selector, y: Selector, z: Selector)
    ensures MergeSelector(MergeSelector(x, y), z) == MergeSelector(x, MergeSelector(y, z))
    ensures MergeSelector(MergeSelector(x, y), y) == MergeSelector(x, y)
  {
    if z.Some? {
      assert map[] + z.value == z.value;
    }
    if y.Some? && z.Some? {
      var a := if x.None? then map[] else x.value;
      assert a + y.value + z.value == a + (y.value + z.value);
    }
    if y.Some? {
      var a := if x.None? then map[] else x.value;
      assert a + y.value + y.value == a + y.value;
    }
  }

  /** Laying one pod over another a second time changes nothing exactly when its containers and volumes are safe. */
  lemma PodSpecReapplyIff(p: PodSpec<VolumeValue>, q: PodSpec<VolumeValue>)
    requires PodsKeepKeys(p, q) && AllItemsWellKeyed(p.volumes) && AllItemsWellKeyed(q.volumes)
    ensures MergePodSpec(MergePodSpec(p, q), q) == MergePodSpec(p, q)
        <==> ReapplyIsSafe(p.containers, q.containers) && ReapplyIsSafe(p.initContainers, q.initContainers)
             && NewOverridesAgree(p.volumes, q.volumes)
  {
    hide MergeVolumes, MergeContainers, MergeTolerations, MergeAliases, MergeDNS, MountsKeepKeys;
    hide ReapplyIsSafe, NewOverridesAgree, AllItemsWellKeyed;
    ContainersReapplyIff(p.containers, q.containers);
    ContainersReapplyIff(p.initContainers, q.initContainers);
    VolumesReapplyIff(p.volumes, q.volumes);
    TolerationsReapply(p.tolerations, q.tolerations);
    AliasesIdempotent(p.hostAliases, q.hostAliases);
    DNSReapply(p.dnsConfig, q.dnsConfig);
    SelectorAssociative(p.nodeSelector, q.nodeSelector, None);
  }

  /** The third application of a pod equals the second. */
  lemma PodSpecStabilises(p: PodSpec<VolumeValue>, q: PodSpec<VolumeValue>)
    requires PodsKeepKeys(p, q) && AllItemsWellKeyed(p.volumes) && AllItemsWellKeyed(q.volumes)
    ensures var twice := MergePodSpec(MergePodSpec(p, q), q); MergePodSpec(twice, q) == twice
  {
    hide MergeVolumes, MergeContainers, MergeTolerations, MergeAliases, MergeDNS, MountsKeepKeys;
    hide AllItemsWellKeyed;
    var once := MergePodSpec(p, q);
    ContainersStabilise(p.containers, q.containers);
    ContainersStabilise(p.initContainers, q.initContainers);
    VolumesStabilise(p.volumes, q.volumes);
    TolerationsReapply(once.tolerations, q.tolerations);
    AliasesIdempotent(once.hostAliases, q.hostAliases);
    DNSReapply(once.dnsConfig, q.dnsConfig);
    SelectorAssociative(once.nodeSelector, q.nodeSelector, None);
  }
}
