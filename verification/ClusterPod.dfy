/**
  `EnsureStatefulsetCluster`: the operator's own container, the user's wrapper laid over it, and what the comparison
  then sees.
 */
module ClusterPod {
  import opened Text
  import opened KeyedMerge
  import opened Sorting
  import opened MergeLaws
  import opened StringUnion
  import opened PodModel
  import opened ContainerMerge
  import opened OrderIndependence
  import opened CustomResource
  import opened ServerList
  import opened VolumeMerge
  import opened VolumeSharing
  import opened VolumesInPlace
  import opened PodSpecMerge
  import opened StatefulSetStore

  /** What the resource says about the environment of its container. */
  datatype EnvSettings = EnvSettings(
    env: seq<EnvVar>, functionMode: string, authEnabled: Option<bool>, tokenExpireSeconds: string, token: string,
    cacheEnabled: Option<bool>, database: string, mysqlHost: string, mysqlPort: string, mysqlDb: string,
    mysqlUser: string, mysqlPassword: string, kind: string, replicas: Option<int>)

  // ---------------------------------------------------------------- the environment

  function Plain(name: string, value: string): EnvVar { EnvVar(name, value, None) }

  function FormatBool(b: bool): string { if b then "true" else "false" }

  function Itoa(n: int): string { if n < 0 then "-" + Decimal(-n) else Decimal(n) }

  /** A function mode starts again from the user's list, so the entry before it is lost. */
  function ModeEnv(s: EnvSettings): seq<EnvVar> {
    if s.functionMode == "naming" || s.functionMode == "config" then [Plain("FUNCTION_MODE", s.functionMode)]
    else [Plain("PREFER_HOST_MODE", "hostname")]
  }

  function AuthEnv(s: EnvSettings): seq<EnvVar> {
    (if s.authEnabled.Some? then [Plain("NACOS_AUTH_ENABLE", FormatBool(s.authEnabled.value))] else []) +
    (if s.tokenExpireSeconds != "" then [Plain("NACOS_AUTH_TOKEN_EXPIRE_SECONDS", s.tokenExpireSeconds)] else []) +
    (if s.token != "" then [Plain("NACOS_AUTH_TOKEN", s.token)] else []) +
    if s.cacheEnabled.Some? then [Plain("NACOS_AUTH_CACHE_ENABLE", FormatBool(s.cacheEnabled.value))] else []
  }

  function DatabaseEnv(s: EnvSettings): seq<EnvVar> {
    if s.database == "embedded" then [Plain("EMBEDDED_STORAGE", "embedded")]
    else if s.database == "mysql" then
      [Plain("SPRING_DATASOURCE_PLATFORM", s.database), Plain("MYSQL_SERVICE_HOST", s.mysqlHost),
       Plain("MYSQL_SERVICE_PORT", s.mysqlPort), Plain("MYSQL_SERVICE_DB_NAME", s.mysqlDb),
       Plain("MYSQL_SERVICE_USER", s.mysqlUser), Plain("MYSQL_SERVICE_PASSWORD", s.mysqlPassword)]
    else []
  }

  function KindEnv(s: EnvSettings): Outcome<seq<EnvVar>> {
    if s.kind == "standalone" then Returned([Plain("MODE", "standalone")])
    else if s.replicas.None? then Panicked(OtherPanic)
    else Returned([Plain("NACOS_REPLICAS", Itoa(s.replicas.value))])
  }

  /** The entries the operator puts behind the user's own. */
  function OperatorEnv(s: EnvSettings): Outcome<seq<EnvVar>> {
    var kind :- KindEnv(s);
    Returned(ModeEnv(s) + AuthEnv(s) + DatabaseEnv(s) + kind)
  }

  method BuildEnv(s: EnvSettings) returns (r: Outcome<seq<EnvVar>>)
    ensures r == match OperatorEnv(s) case Returned(own) => Returned(s.env + own) case Panicked(p) => Panicked(p)
  {
    hide AuthEnv, DatabaseEnv, KindEnv;
    var env := s.env + [Plain("PREFER_HOST_MODE", "hostname")];
    if s.functionMode == "naming" {
      env := s.env + [Plain("FUNCTION_MODE", "naming")];
    } else if s.functionMode == "config" {
      env := s.env + [Plain("FUNCTION_MODE", "config")];
    }
    env := AddAuthEnv(env, s);
    env := env + DatabaseEnv(s);
    var kind :- KindEnv(s);
    r := Returned(env + kind);
    assert env + kind == s.env + (ModeEnv(s) + AuthEnv(s) + DatabaseEnv(s) + kind);
  }

  method AddAuthEnv(base: seq<EnvVar>, s: EnvSettings) returns (env: seq<EnvVar>)
    ensures env == base + AuthEnv(s)
  {
    env := base;
    if s.authEnabled.Some? {
      env := env + [Plain("NACOS_AUTH_ENABLE", FormatBool(s.authEnabled.value))];
    }
    if s.tokenExpireSeconds != "" {
      env := env + [Plain("NACOS_AUTH_TOKEN_EXPIRE_SECONDS", s.tokenExpireSeconds)];
    }
    if s.token != "" {
      env := env + [Plain("NACOS_AUTH_TOKEN", s.token)];
    }
    if s.cacheEnabled.Some? {
      env := env + [Plain("NACOS_AUTH_CACHE_ENABLE", FormatBool(s.cacheEnabled.value))];
    }
  }

  function One(asked: bool): nat { if asked then 1 else 0 }

  lemma ModeEnvTells(s: EnvSettings)
    ensures |ModeEnv(s)| == 1
    ensures s.functionMode in {"naming", "config"} ==> Plain("FUNCTION_MODE", s.functionMode) in ModeEnv(s)
    ensures s.functionMode !in {"naming", "config"} ==> Plain("PREFER_HOST_MODE", "hostname") in ModeEnv(s)
  {
  }

  lemma AuthEnvTells(s: EnvSettings)
    ensures |AuthEnv(s)| == One(s.authEnabled.Some?) + One(s.tokenExpireSeconds != "") + One(s.token != "")
                            + One(s.cacheEnabled.Some?)
    ensures s.authEnabled == Some(true) ==> Plain("NACOS_AUTH_ENABLE", "true") in AuthEnv(s)
    ensures s.authEnabled == Some(false) ==> Plain("NACOS_AUTH_ENABLE", "false") in AuthEnv(s)
    ensures s.tokenExpireSeconds != "" ==> Plain("NACOS_AUTH_TOKEN_EXPIRE_SECONDS", s.tokenExpireSeconds) in AuthEnv(s)
    ensures s.token != "" ==> Plain("NACOS_AUTH_TOKEN", s.token) in AuthEnv(s)
    ensures s.cacheEnabled == Some(true) ==> Plain("NACOS_AUTH_CACHE_ENABLE", "true") in AuthEnv(s)
    ensures s.cacheEnabled == Some(false) ==> Plain("NACOS_AUTH_CACHE_ENABLE", "false") in AuthEnv(s)
  {
  }

  lemma DatabaseEnvTells(s: EnvSettings)
    ensures |DatabaseEnv(s)| == One(s.database == "embedded") + 6 * One(s.database == "mysql")
    ensures s.database == "embedded" ==> Plain("EMBEDDED_STORAGE", "embedded") in DatabaseEnv(s)
    ensures s.database == "mysql" ==>
      && Plain("SPRING_DATASOURCE_PLATFORM", "mysql") in DatabaseEnv(s)
      && Plain("MYSQL_SERVICE_HOST", s.mysqlHost) in DatabaseEnv(s)
      && Plain("MYSQL_SERVICE_PORT", s.mysqlPort) in DatabaseEnv(s)
      && Plain("MYSQL_SERVICE_DB_NAME", s.mysqlDb) in DatabaseEnv(s)
      && Plain("MYSQL_SERVICE_USER", s.mysqlUser) in DatabaseEnv(s)
      && Plain("MYSQL_SERVICE_PASSWORD", s.mysqlPassword) in DatabaseEnv(s)
  {
  }

  /** The number of replicas can be read back from what is printed of it. */
  lemma ItoaReads(n: int)
    ensures n >= 0 ==> Number(Itoa(n)) == n
    ensures n < 0 ==> Itoa(n) != [] && Itoa(n)[0] == '-' && Number(Itoa(n)[1..]) == -n
  {
    DecimalReads(if n < 0 then -n else n);
  }

  lemma KindEnvTells(s: EnvSettings)
    ensures KindEnv(s) == Panicked(OtherPanic) <==> s.kind != "standalone" && s.replicas.None?
    ensures KindEnv(s).Panicked? ==> KindEnv(s) == Panicked(OtherPanic)
    ensures KindEnv(s).Returned? ==> |KindEnv(s).value| == 1 && KindEnv(s).value[0].valueFrom.None?
    ensures s.kind == "standalone" ==> KindEnv(s) == Returned([Plain("MODE", "standalone")])
    ensures s.kind != "standalone" && s.replicas.Some? ==>
      && KindEnv(s).value[0].name == "NACOS_REPLICAS"
      && (s.replicas.value >= 0 ==> Number(KindEnv(s).value[0].value) == s.replicas.value)
  {
    if s.replicas.Some? { ItoaReads(s.replicas.value); }
  }

  /**
    The operator's entries, setting by setting: each that is asked for is there with its own value, and there are no
    others. Building them faults only for a missing number of replicas, outside standalone mode.
   */
  lemma OperatorEnvTells(s: EnvSettings)
    ensures OperatorEnv(s).Panicked? <==> s.kind != "standalone" && s.replicas.None?
    ensures OperatorEnv(s).Panicked? ==> OperatorEnv(s) == Panicked(OtherPanic)
    ensures OperatorEnv(s).Returned? ==>
      && |OperatorEnv(s).value| == |ModeEnv(s)| + |AuthEnv(s)| + |DatabaseEnv(s)| + 1
      && (forall e :: e in OperatorEnv(s).value <==>
            e in ModeEnv(s) || e in AuthEnv(s) || e in DatabaseEnv(s) || e in KindEnv(s).value)
  {
    hide ModeEnv, AuthEnv, DatabaseEnv, KindEnv;
    KindEnvTells(s);
  }

  lemma {:induction false} IndexConcat<T>(a: seq<T>, b: seq<T>, key: T -> string)
    ensures IndexBy(a + b, key) == IndexBy(a, key) + IndexBy(b, key)
  {
    if b == [] {
      assert a + b == a;
    } else {
      assert (a + b)[..|a + b| - 1] == a + b[..|b| - 1];
      IndexConcat(a, b[..|b| - 1], key);
    }
  }

  lemma AuthEnvNames(s: EnvSettings)
    ensures forall e | e in AuthEnv(s) :: e.name != "PREFER_HOST_MODE"
  {
    assert forall v :: Plain("NACOS_AUTH_ENABLE", v).name[0] == 'N';
    assert "PREFER_HOST_MODE"[0] == 'P';
  }

  lemma DatabaseEnvNames(s: EnvSettings)
    ensures forall e | e in DatabaseEnv(s) :: e.name != "PREFER_HOST_MODE"
  {
    assert "PREFER_HOST_MODE"[0] == 'P';
  }

  lemma KindEnvNames(s: EnvSettings)
    requires KindEnv(s).Returned?
    ensures forall e | e in KindEnv(s).value :: e.name != "PREFER_HOST_MODE"
  {
    assert "PREFER_HOST_MODE"[0] == 'P';
  }

  /** Pods are addressed by host name exactly when no function mode is set, or the user asks for it too. */
  lemma HostnameModeIff(s: EnvSettings)
    requires OperatorEnv(s).Returned?
    ensures Plain("PREFER_HOST_MODE", "hostname") in s.env + OperatorEnv(s).value <==>
            s.functionMode !in {"naming", "config"} || Plain("PREFER_HOST_MODE", "hostname") in s.env
  {
    hide AuthEnv, DatabaseEnv, KindEnv;
    AuthEnvNames(s);
    DatabaseEnvNames(s);
    KindEnvNames(s);
    assert "FUNCTION_MODE"[0] == 'F' && "PREFER_HOST_MODE"[0] == 'P';
  }

  /** Where the user and the operator both set a variable, the operator's entry is the one that takes effect. */
  lemma OperatorEntriesWin(s: EnvSettings, e: EnvVar)
    requires OperatorEnv(s).Returned? && e in OperatorEnv(s).value
    ensures e.name in IndexBy(s.env + OperatorEnv(s).value, EnvName)
         && IndexBy(s.env + OperatorEnv(s).value, EnvName)[e.name] in OperatorEnv(s).value
  {
    hide OperatorEnv;
    IndexConcat(s.env, OperatorEnv(s).value, EnvName);
    IndexSound(OperatorEnv(s).value, EnvName);
    assert EnvName(e) in IndexBy(OperatorEnv(s).value, EnvName);
  }

  // ---------------------------------------------------------------- the cluster's additions

  /** The script that waits for every host: the host list sits between two fixed parts. */
  datatype Script = Script(before: string, after: string)

  function HostList(name: string, namespace: string, domain: string, n: nat): string
    decreases n
  {
    if n == 0 then "" else HostList(name, namespace, domain, n - 1) + Host(name, namespace, domain, n - 1) + " "
  }

  method PrintHosts(name: string, namespace: string, domain: string, replicas: nat) returns (r: string)
    ensures r == HostList(name, namespace, domain, replicas)
  {
    r := "";
    for i := 0 to replicas
      invariant r == HostList(name, namespace, domain, i)
    {
      r := r + Host(name, namespace, domain, i) + " ";
    }
  }

  function StartCommand(script: Script, hosts: string): seq<string> {
    ["sh", "-c", script.before + hosts + script.after + " && exec bin/docker-startup.sh"]
  }

  function Servers(name: string, namespace: string, domain: string, n: nat): string {
    Joined(Entries(name, namespace, domain, n), " ")
  }

  /** The built container once it knows the cluster it belongs to. */
  function Clustered(c: Container, servers: string, command: seq<string>): Container {
    c.(env := c.env + [Plain("NACOS_SERVERS", servers)], command := command)
  }

  method BuildStatefulsetCluster(c: Container, name: string, namespace: string, domain: string, replicas: int,
      script: Script)
    returns (r: Outcome<Container>)
    ensures r == if replicas >= 1
                 then Returned(Clustered(c, Servers(name, namespace, domain, replicas),
                                         StartCommand(script, HostList(name, namespace, domain, replicas))))
                 else Panicked(OtherPanic)
  {
    var servers :- PrintServers(name, namespace, domain, replicas);
    var hosts := PrintHosts(name, namespace, domain, replicas);
    r := Returned(Clustered(c, servers, StartCommand(script, hosts)));
  }

  // ---------------------------------------------------------------- what survives the wrapper

  /** The wrapper's last container of this name. */
  ghost function WrapperOf(wrapper: seq<Container>, name: string): Option<Container> {
    var w := WithKey(wrapper, ContainerName, name);
    if w == [] then None else Some(Last(w))
  }

  ghost predicate SidecarFirst(wrapper: seq<Container>, name: string) {
    exists w | w in wrapper :: Less(w.name, name)
  }

  lemma SingleIndex(c: Container)
    ensures IndexBy([c], ContainerName) == map[c.name := c]
  {
    assert [c][..0] == [];
  }

  lemma WrapperIndexed(wrapper: seq<Container>, name: string)
    ensures WrapperOf(wrapper, name).Some? <==> name in IndexBy(wrapper, ContainerName)
    ensures WrapperOf(wrapper, name).Some? ==> WrapperOf(wrapper, name).value == IndexBy(wrapper, ContainerName)[name]
  {
    IndexLast(wrapper, ContainerName, name);
  }

  /** Where a name of either list stands in the merged one. */
  lemma PlaceOf(original: seq<Container>, override: seq<Container>, merged: seq<Container>, name: string)
      returns (i: nat)
    requires ContainersOutcome(original, override, merged)
    requires name in IndexBy(original, ContainerName).Keys + IndexBy(override, ContainerName).Keys
    ensures i < |merged| && merged[i].name == name
    ensures forall j | 0 <= j < |merged| && merged[j].name == name :: j == i
    ensures EntryOutcome(IndexBy(original, ContainerName), IndexBy(override, ContainerName), name, merged[i])
  {
    hide EntryOutcome;
    var ks := SortedKeys(IndexBy(original, ContainerName).Keys + IndexBy(override, ContainerName).Keys);
    assert name in ks && ks == KeysOf(merged, ContainerName);
    i :| 0 <= i < |ks| && ks[i] == name;
    assert ContainerName(merged[i]) == name;
    forall j | 0 <= j < |merged| && merged[j].name == name ensures j == i {
      assert ContainerName(merged[j]) == ks[j] == ks[i];
      LessIrreflexive(name);
    }
  }

  /**
    Whatever the wrapper holds, exactly one container is named after the resource. It is the built one if the
    wrapper does not name it; otherwise its command still starts with the built one.
   */
  lemma BuiltContainerSurvives(c: Container, wrapper: seq<Container>, merged: seq<Container>) returns (i: nat)
    requires ContainersOutcome([c], wrapper, merged)
    ensures i < |merged| && merged[i].name == c.name
    ensures forall j | 0 <= j < |merged| && merged[j].name == c.name :: j == i
    ensures match WrapperOf(wrapper, c.name)
            case None => merged[i] == c
            case Some(w) => ContainerOutcome(c, w, merged[i]) && c.command <= merged[i].command
  {
    hide ContainersOutcome, ContainerOutcome, WrapperOf;
    SingleIndex(c);
    WrapperIndexed(wrapper, c.name);
    i := PlaceOf([c], wrapper, merged, c.name);
    if WrapperOf(wrapper, c.name).Some? {
      CommandPrefix(c, WrapperOf(wrapper, c.name).value, merged[i]);
    }
  }

  lemma CommandPrefix(c: Container, w: Container, m: Container)
    requires ContainerOutcome(c, w, m)
    ensures c.command <= m.command
    ensures m.env == MergeEnvs(c.env, w.env)
  {
    hide MergeEnvs, MergePorts, MergeDevices, Produces, MergeMounts, Union;
    UnionContents(c.command, w.command);
  }

  /** The wrapper leaves a variable alone: it has no entry for it, an empty one, or one that says the same. */
  ghost predicate LeavesAlone(wrapper: seq<Container>, name: string, variable: EnvVar) {
    var w := WrapperOf(wrapper, name);
    w.None? ||
      var es := WithKey(w.value.env, EnvName, variable.name);
      es == [] || (Last(es).valueFrom.None? && Last(es).value in {"", variable.value})
  }

  lemma MergedVariable(base: seq<EnvVar>, v: EnvVar, override: seq<EnvVar>)
    requires v.valueFrom.None? && v.value != ""
    ensures var m := IndexBy(MergeEnvs(base + [v], override), EnvName);
            var es := WithKey(override, EnvName, v.name);
            v.name in m && (m[v.name] == v
                <==> es == [] || (Last(es).valueFrom.None? && Last(es).value in {"", v.value}))
  {
    var a := base + [v];
    assert a[..|a| - 1] == base;
    ContainerLaws.EnvKeepsName(a, override);
    IndexMerge(a, override, EnvName, MergeEnv);
    IndexLast(override, EnvName, v.name);
    if v.name in IndexBy(override, EnvName) {
      IndexSound(override, EnvName);
      assert EnvName(IndexBy(override, EnvName)[v.name]) == v.name;
    }
  }

  /** The server list the pods start with is the printed one exactly when the wrapper leaves NACOS_SERVERS alone. */
  lemma ServersSurviveIff(c: Container, servers: string, command: seq<string>, wrapper: seq<Container>,
                          merged: seq<Container>, i: nat)
    requires servers != "" && ContainersOutcome([Clustered(c, servers, command)], wrapper, merged)
    requires i < |merged| && merged[i].name == c.name
    ensures var variable, effective := Plain("NACOS_SERVERS", servers), IndexBy(merged[i].env, EnvName);
            && variable.name in effective
            && (effective[variable.name] == variable <==> LeavesAlone(wrapper, c.name, variable))
  {
    hide ContainersOutcome, ContainerOutcome, WrapperOf, IndexBy;
    var built := Clustered(c, servers, command);
    var variable := Plain("NACOS_SERVERS", servers);
    var j := BuiltContainerSurvives(built, wrapper, merged);
    assert i == j;
    match WrapperOf(wrapper, c.name)
    case None =>
      LastIndexed(c.env, variable);
    case Some(w) =>
      CommandPrefix(built, w, merged[i]);
      MergedVariable(c.env, variable, w.env);
  }

  lemma LastIndexed(base: seq<EnvVar>, v: EnvVar)
    ensures v.name in IndexBy(base + [v], EnvName) && IndexBy(base + [v], EnvName)[v.name] == v
  {
    assert (base + [v])[..|base + [v]| - 1] == base;
  }

  // ---------------------------------------------------------------- what the comparison sees

  /** The first container is the resource's own exactly when no wrapper container's name is smaller. */
  lemma OwnContainerFirstIff(c: Container, wrapper: seq<Container>, merged: seq<Container>)
    requires ContainersOutcome([c], wrapper, merged)
    ensures merged != [] && (merged[0].name == c.name <==> !SidecarFirst(wrapper, c.name))
  {
    hide EntryOutcome;
    SingleIndex(c);
    IndexSound(wrapper, ContainerName);
    var i := PlaceOf([c], wrapper, merged, c.name);
    var ks := KeysOf(merged, ContainerName);
    assert Ascending(ks) && ks[i] == c.name;
    if SidecarFirst(wrapper, c.name) {
      var w :| w in wrapper && Less(w.name, c.name);
      assert ContainerName(w) in IndexBy(wrapper, ContainerName);
      var j := PlaceOf([c], wrapper, merged, w.name);
      assert ks[j] == w.name;
      if i == 0 {
        assert j == 0 || Less(ks[0], ks[j]);
        LessIrreflexive(c.name);
        LessAsymmetric(w.name, c.name);
      }
    } else if i > 0 {
      assert Less(ks[0], ks[i]);
      LessIrreflexive(c.name);
      assert ks[0] in ks;
      assert ks[0] in IndexBy(wrapper, ContainerName);
      var w := IndexBy(wrapper, ContainerName)[ks[0]];
      assert w in wrapper && ContainerName(w) == ks[0];
      assert Less(w.name, c.name);
    }
  }

  /** With a smaller name in the wrapper the first container is the wrapper's, whatever was built. */
  lemma SidecarIsRaw(c: Container, d: Container, wrapper: seq<Container>, merged: seq<Container>, other: seq<Container>)
    requires c.name == d.name && SidecarFirst(wrapper, c.name)
    requires ContainersOutcome([c], wrapper, merged) && ContainersOutcome([d], wrapper, other)
    ensures merged != [] && other != [] && merged[0] == other[0]
  {
    SingleIndex(c);
    SingleIndex(d);
    OwnContainerFirstIff(c, wrapper, merged);
    OwnContainerFirstIff(d, wrapper, other);
    assert IndexBy([c], ContainerName).Keys == {c.name} == IndexBy([d], ContainerName).Keys;
    assert ContainerName(merged[0]) == KeysOf(merged, ContainerName)[0] == KeysOf(other, ContainerName)[0]
        == ContainerName(other[0]);
    hide ContainerOutcome;
    assert EntryOutcome(IndexBy([c], ContainerName), IndexBy(wrapper, ContainerName), merged[0].name, merged[0]);
    assert EntryOutcome(IndexBy([d], ContainerName), IndexBy(wrapper, ContainerName), other[0].name, other[0]);
  }

  /**
    A change of the resource that keeps its replicas and claims is not acted on exactly when a wrapper container
    comes first by name, or the merged containers of the resource agree on environment and resources.
   */
  lemma ChangeMissedIff(c: Container, d: Container, wrapper: seq<Container>, was: StatefulSet, now: StatefulSet,
      i: nat, j: nat)
    requires c.name == d.name
    requires ContainersOutcome([c], wrapper, was.containers) && ContainersOutcome([d], wrapper, now.containers)
    requires was.replicas == now.replicas && was.claims == now.claims && Usable(was)
    requires i < |was.containers| && was.containers[i].name == c.name
    requires j < |now.containers| && now.containers[j].name == c.name
    ensures Compare(was, now) == Returned(NoChange) <==>
            || SidecarFirst(wrapper, c.name)
            || (was.containers[i].env == now.containers[j].env
                && was.containers[i].resources == now.containers[j].resources)
  {
    hide ContainersOutcome;
    OwnContainerFirstIff(c, wrapper, was.containers);
    OwnContainerFirstIff(d, wrapper, now.containers);
    var k := BuiltContainerSurvives(c, wrapper, was.containers);
    var l := BuiltContainerSurvives(d, wrapper, now.containers);
    CompareIff(was, now);
    if SidecarFirst(wrapper, c.name) {
      SidecarIsRaw(c, d, wrapper, was.containers, now.containers);
    }
  }

  /** One sidecar with a smaller name, and any change of the built container goes unnoticed. */
  lemma SidecarHides(c: Container, d: Container, sidecar: Container, replicas: int)
    returns (was: StatefulSet, now: StatefulSet, i: nat, j: nat)
    requires c.name == d.name && Less(sidecar.name, c.name)
    ensures ContainersOutcome([c], [sidecar], was.containers) && ContainersOutcome([d], [sidecar], now.containers)
    ensures i < |was.containers| && was.containers[i] == c && j < |now.containers| && now.containers[j] == d
    ensures Compare(was, now) == Returned(NoChange)
  {
    hide ContainersOutcome, Compare;
    LessIrreflexive(c.name);
    var old_ := SomeOutcome([c], [sidecar]);
    var new_ := SomeOutcome([d], [sidecar]);
    was, now := StatefulSet(Some(replicas), old_, [], 0), StatefulSet(Some(replicas), new_, [], 0);
    i := BuiltContainerSurvives(c, [sidecar], old_);
    j := BuiltContainerSurvives(d, [sidecar], new_);
    NotNamed(sidecar, c.name);
    assert sidecar in [sidecar];
    ChangeMissedIff(c, d, [sidecar], was, now, i, j);
  }

  lemma NotNamed(sidecar: Container, name: string)
    requires sidecar.name != name
    ensures WrapperOf([sidecar], name).None?
  {
    var one := [sidecar];
    assert one[..0] == [] && ContainerName(one[0]) == sidecar.name;
    assert WithKey(one, ContainerName, name) == WithKey(one[..0], ContainerName, name) + [];
  }

  // ---------------------------------------------------------------- the pipeline

  /** What the built pod comes from, apart from the parts that are built elsewhere and passed in. */
  datatype Build = Build(name: string, namespace: string, settings: EnvSettings, script: Script,
      claims: seq<ClaimTemplate>)

  function DomainPairs(env: seq<EnvVar>): seq<(string, string)> {
    seq(|env|, i requires 0 <= i < |env| => (env[i].name, env[i].value))
  }

  /** The container the operator wants before the wrapper is laid over it, or how building it ends. */
  function Wanted(b: Build, c: Container): Outcome<Container> {
    var own :- OperatorEnv(b.settings);
    if b.settings.replicas.None? || b.settings.replicas.value < 1 then Panicked(OtherPanic)
    else
      var domain, n := DomainOf(DomainPairs(b.settings.env)), b.settings.replicas.value;
      Returned(Clustered(c.(name := b.name, env := b.settings.env + own), Servers(b.name, b.namespace, domain, n),
                         StartCommand(b.script, HostList(b.name, b.namespace, domain, n))))
  }

  method BuildContainer(b: Build, c: Container) returns (r: Outcome<Container>)
    ensures r == Wanted(b, c)
  {
    hide OperatorEnv, HostList, Servers, DomainOf;
    var env :- BuildEnv(b.settings);
    var domain := ReadDomain(DomainPairs(b.settings.env));
    if b.settings.replicas.None? {
      return Panicked(OtherPanic);
    }
    r := BuildStatefulsetCluster(c.(name := b.name, env := env), b.name, b.namespace, domain,
        b.settings.replicas.value, b.script);
  }

  lemma HostNoSpace(name: string, namespace: string, domain: string, i: nat)
    requires NoSpace(name) && NoSpace(namespace) && NoSpace(domain)
    ensures NoSpace(Host(name, namespace, domain, i))
  {
    DecimalDigits(i);
  }

  function Hosts(name: string, namespace: string, domain: string, n: nat): (r: seq<string>)
    ensures |r| == n && forall i | 0 <= i < n :: r[i] == Host(name, namespace, domain, i)
  {
    seq(n, i requires 0 <= i < n => Host(name, namespace, domain, i))
  }

  /** The host list the pods wait for, split on spaces, is every host of the cluster and an empty rest. */
  lemma {:induction false} HostListReads(name: string, namespace: string, domain: string, n: nat)
    requires NoSpace(name) && NoSpace(namespace) && NoSpace(domain)
    ensures Split(HostList(name, namespace, domain, n), ' ') == Hosts(name, namespace, domain, n) + [""]
  {
    hide Host, NoSpace;
    if n > 0 {
      HostNoSpace(name, namespace, domain, n - 1);
      HostListReads(name, namespace, domain, n - 1);
      NextHostReads(name, namespace, domain, n);
    }
  }

  lemma NextHostReads(name: string, namespace: string, domain: string, n: nat)
    requires n > 0 && NoSpace(Host(name, namespace, domain, n - 1))
    requires Split(HostList(name, namespace, domain, n - 1), ' ') == Hosts(name, namespace, domain, n - 1) + [""]
    ensures Split(HostList(name, namespace, domain, n), ' ') == Hosts(name, namespace, domain, n) + [""]
  {
    hide Host, Split;
    var front, host := HostList(name, namespace, domain, n - 1), Host(name, namespace, domain, n - 1);
    var hosts := Hosts(name, namespace, domain, n - 1);
    SplitMore(front, host, ' ', hosts);
    assert HostList(name, namespace, domain, n) == front + host + [' '];
    assert Hosts(name, namespace, domain, n) == hosts + [host];
  }

  /**
    The container built for a cluster: the given one under the resource's name, with the user's entries first, then the
    operator's, then the servers; it waits for every host of the cluster and then starts. Without at least one
    replica there is none.
   */
  lemma WantedTells(b: Build, c: Container)
    ensures Wanted(b, c) == Panicked(OtherPanic) <==> b.settings.replicas.None? || b.settings.replicas.value < 1
    ensures Wanted(b, c).Panicked? ==> Wanted(b, c) == Panicked(OtherPanic)
    ensures Wanted(b, c).Returned? ==>
      var w, n, domain := Wanted(b, c).value, b.settings.replicas.value, DomainOf(DomainPairs(b.settings.env));
      && w == c.(name := b.name, env := w.env, command := w.command)
      && OperatorEnv(b.settings).Returned?
      && |w.env| > 0 && w.env[..|w.env| - 1] == b.settings.env + OperatorEnv(b.settings).value
      && w.env[|w.env| - 1].name == "NACOS_SERVERS" && w.env[|w.env| - 1].valueFrom.None?
      && |w.command| == 3 && w.command[0] == "sh" && w.command[1] == "-c"
      && (NoSpace(b.name) && NoSpace(b.namespace) && NoSpace(domain) ==>
            && Split(w.env[|w.env| - 1].value, ' ') == Entries(b.name, b.namespace, domain, n)
            && exists hosts ::
                 && Split(hosts, ' ') == Hosts(b.name, b.namespace, domain, n) + [""]
                 && w.command[2] == b.script.before + hosts + b.script.after + " && exec bin/docker-startup.sh")
  {
    hide DomainOf, Joined, HostList, NoSpace, Entries, Split;
    OperatorEnvTells(b.settings);
    hide OperatorEnv;
    if Wanted(b, c).Returned? {
      var n, domain := b.settings.replicas.value, DomainOf(DomainPairs(b.settings.env));
      if NoSpace(b.name) && NoSpace(b.namespace) && NoSpace(domain) {
        ServersRoundTrip(b.name, b.namespace, domain, n);
        HostListReads(b.name, b.namespace, domain, n);
      }
    }
  }

  const DATA_MOUNT := VolumeMount("db", false, "/home/nacos/data", "", None, "")
  const CONFIG_MOUNT := VolumeMount("config", false, "/home/nacos/init.d/custom.properties", "custom.properties",
      None, "")

  /** The mounts the operator builds: the data volume, and the custom properties. */
  function BuiltMounts(volumeEnabled: bool, config: string): seq<VolumeMount> {
    (if volumeEnabled then [DATA_MOUNT] else []) + if config != "" then [CONFIG_MOUNT] else []
  }

  lemma DataMountPlain()
    ensures PlainMounts([DATA_MOUNT])
  {
  }

  lemma ConfigMountPlain()
    ensures PlainMounts([CONFIG_MOUNT])
  {
  }

  lemma PlainConcat(a: seq<VolumeMount>, b: seq<VolumeMount>)
    requires PlainMounts(a) && PlainMounts(b)
    ensures PlainMounts(a + b)
  {
  }

  lemma BuiltMountsPlain(volumeEnabled: bool, config: string)
    ensures PlainMounts(BuiltMounts(volumeEnabled, config))
  {
    DataMountPlain();
    ConfigMountPlain();
    assert PlainMounts([]);
    hide PlainMounts;
    PlainConcat(if volumeEnabled then [DATA_MOUNT] else [], if config != "" then [CONFIG_MOUNT] else []);
  }

  /** With these mounts the cluster pod's containers are determined, whatever the wrapper mounts. */
  lemma BuiltPodIsDetermined(b: Build, c: Container, volumeEnabled: bool, config: string, wrapper: seq<Container>)
    requires Wanted(b, c).Returned? && c.volumeMounts == BuiltMounts(volumeEnabled, config)
    ensures var built := [Wanted(b, c).value];
      forall merged :: ContainersOutcome(built, wrapper, merged) <==> merged == MergeContainers(built, wrapper)
  {
    hide ContainersOutcome, MergeContainers, PlainMounts, BuiltMounts, OperatorEnv;
    BuiltMountsPlain(volumeEnabled, config);
    PlainDefaultsAreOrderIndependent([Wanted(b, c).value], wrapper);
  }

  /** `pod` is the built pod, with the container's remaining fields; nothing is written unless building succeeds. */
  method EnsureStatefulsetCluster(b: Build, c: Container, pod: PodSpec<Volume>, wrapper: PodSpec<Volume>,
                                  api: StatefulSetApi, f: Faults)
    returns (r: Outcome<()>, ghost desired: StatefulSet)
    requires api.lastWrite.None?
    modifies api, AllSources(pod.volumes)
    ensures Wanted(b, c).Panicked? ==>
        r == Panicked(Wanted(b, c).panic) && api.store == old(api.store) && api.lastWrite.None?
    ensures Wanted(b, c).Returned? ==>
      && ContainersOutcome([Wanted(b, c).value], wrapper.containers, desired.containers)
      && desired.replicas == b.settings.replicas && desired.claims == b.claims
      && var e := Upsert(old(api.store), desired, f);
         && api.store == e.store && api.lastWrite == e.write
         && r == (match e.result
                  case Panicked(p) => Panicked(p)
                  case Returned(ok) => if ok then Returned(()) else Panicked(OtherPanic))
  {
    hide SafelyShared, OverridesStill, SharersAgree, NewNamesOnce, After, MergedPointers, MergeVolumes, View,
        MergePodSpec;
    hide ContainersOutcome, PodsKeepKeys, Wanted, Upsert, Values;
    var built := BuildContainer(b, c);
    if built.Panicked? {
      r := Panicked(built.panic);
      desired := StatefulSet(None, [], [], 0);
      return;
    }
    var merged := PodSpecs(pod.(containers := [built.value]), wrapper);
    var wanted := StatefulSet(b.settings.replicas, merged.containers, b.claims, 0);
    desired := wanted;
    var done := api.CreateOrUpdateStatefulSet(wanted, f);
    match done {
      case Panicked(p) => r := Panicked(p);
      case Returned(ok) => r := if ok then Returned(()) else Panicked(OtherPanic);
    }
  }
}
