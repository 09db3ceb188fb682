/** `CheckKind` and `CheckNacos`: enough ready pods, and a cluster that agrees on one leader. */
module Health {
  import opened PodModel
  import opened CustomResource
  import opened ServerList

  datatype PodCondition = PodCondition(kind: string, status: string)

  datatype Server = Server(state: string, leader: string, version: string)

  /** A pod, and what asking it for its cluster nodes gives: a server list, or an error. */
  datatype Pod = Pod(name: string, ip: string, node: string, conditions: seq<PodCondition>, view: Option<seq<Server>>)

  // ---------------------------------------------------------------- ready pods

  /** Only the first condition of type Ready counts. */
  predicate IsReady(conditions: seq<PodCondition>) {
    conditions != [] &&
    if conditions[0].kind == "Ready" then conditions[0].status == "True" else IsReady(conditions[1..])
  }

  function ReadyPods(pods: seq<Pod>): seq<Pod> {
    if pods == [] then []
    else ReadyPods(pods[..|pods| - 1]) + if IsReady(pods[|pods| - 1].conditions) then [pods[|pods| - 1]] else []
  }

  method GetStatefulSetReadPod(pods: seq<Pod>) returns (podlist: seq<Pod>)
    ensures podlist == ReadyPods(pods)
  {
    podlist := [];
    for i := 0 to |pods|
      invariant podlist == ReadyPods(pods[..i])
    {
      assert pods[..i + 1][..i] == pods[..i];
      var pod, j := pods[i], 0;
      assert pod.conditions[0..] == pod.conditions;
      while j < |pod.conditions|
        invariant 0 <= j <= |pod.conditions|
        invariant podlist == ReadyPods(pods[..i])
        invariant IsReady(pod.conditions) == IsReady(pod.conditions[j..])
      {
        if pod.conditions[j].kind == "Ready" {
          if pod.conditions[j].status == "True" {
            podlist := podlist + [pod];
          }
          break;
        }
        j := j + 1;
      }
    }
    assert pods[..|pods|] == pods;
  }

  /** Ready means the first condition of type Ready, if there is one, is true. */
  lemma {:induction false} IsReadyIff(conditions: seq<PodCondition>)
    ensures IsReady(conditions) <==>
      exists i :: 0 <= i < |conditions| && conditions[i] == PodCondition("Ready", "True")
                  && forall j | 0 <= j < i :: conditions[j].kind != "Ready"
  {
    if conditions != [] {
      IsReadyIff(conditions[1..]);
      var rest := conditions[1..];
      if conditions[0].kind == "Ready" {
        if conditions[0].status == "True" {
          assert conditions[0] == PodCondition("Ready", "True");
        }
      } else {
        if IsReady(rest) {
          var i :| 0 <= i < |rest| && rest[i] == PodCondition("Ready", "True")
                   && forall j | 0 <= j < i :: rest[j].kind != "Ready";
          assert conditions[i + 1] == PodCondition("Ready", "True");
          assert forall j | 0 <= j < i + 1 :: conditions[j].kind != "Ready" by {
            forall j | 0 < j < i + 1 ensures conditions[j].kind != "Ready" { assert conditions[j] == rest[j - 1]; }
          }
        }
        if i :| 0 <= i < |conditions| && conditions[i] == PodCondition("Ready", "True")
                && forall j | 0 <= j < i :: conditions[j].kind != "Ready" {
          assert rest[i - 1] == PodCondition("Ready", "True");
          assert forall j | 0 <= j < i - 1 :: rest[j] == conditions[j + 1];
        }
      }
    }
  }

  lemma {:induction false} ReadyCount(pods: seq<Pod>, p: Pod)
    ensures |ReadyPods(pods)| <= |pods|
    ensures multiset(ReadyPods(pods))[p] == if IsReady(p.conditions) then multiset(pods)[p] else 0
  {
    hide IsReady;
    if pods != [] {
      var front, last := pods[..|pods| - 1], pods[|pods| - 1];
      ReadyCount(front, p);
      assert pods == front + [last];
      var ready := if IsReady(last.conditions) then [last] else [];
      assert multiset(ReadyPods(front) + ready) == multiset(ReadyPods(front)) + multiset(ready);
    }
  }

  /** Every ready pod is returned as often as it is listed, and no other pod is. */
  lemma ReadyPodsExact(pods: seq<Pod>)
    ensures forall p :: multiset(ReadyPods(pods))[p] == if IsReady(p.conditions) then multiset(pods)[p] else 0
  {
    forall p ensures multiset(ReadyPods(pods))[p] == if IsReady(p.conditions) then multiset(pods)[p] else 0 {
      ReadyCount(pods, p);
    }
  }

  /** And they keep the order of the listing: `at` says where each of them stands there. */
  lemma {:induction false} ReadyInOrder(pods: seq<Pod>) returns (at: seq<nat>)
    ensures |at| == |ReadyPods(pods)|
    ensures forall i | 0 <= i < |at| :: at[i] < |pods| && pods[at[i]] == ReadyPods(pods)[i]
    ensures forall i, j | 0 <= i < j < |at| :: at[i] < at[j]
  {
    hide IsReady;
    at := [];
    if pods != [] {
      at := ReadyInOrder(pods[..|pods| - 1]);
      if IsReady(pods[|pods| - 1].conditions) {
        at := at + [|pods| - 1];
      }
    }
  }

  // ---------------------------------------------------------------- replica and ready-pod threshold

  /** Go's integer division by two. */
  function Half(n: int): int { if n >= 0 then n / 2 else -(-n / 2) }

  /**
    Compares the replicas of the StatefulSet (`None` inside: no value to dereference) with those wanted,
    then counts the ready pods. An error while listing pods is ignored and leaves no pod.
   */
  method CheckKind(nacos: Nacos, sts: Option<Option<int>>, pods: Option<seq<Pod>>) returns (r: Outcome<seq<Pod>>)
    ensures r == KindCheck(nacos.spec.replicas, sts, pods)
  {
    if sts.None? || sts.value.None? || nacos.spec.replicas.None? {
      return Panicked(OtherPanic);
    }
    if sts.value.value != nacos.spec.replicas.value {
      return Panicked(OperatorError(CODE_ERR_UNKNOW, "cr replicas is not equal ss replicas"));
    }
    var ready: seq<Pod> := [];
    if pods.Some? {
      ready := GetStatefulSetReadPod(pods.value);
    }
    if |ready| < Half(nacos.spec.replicas.value + 1) {
      return Panicked(OperatorError(CODE_ERR_UNKNOW, "The number of ready pods is too less"));
    }
    return Returned(ready);
  }

  function KindCheck(replicas: Option<int>, sts: Option<Option<int>>, pods: Option<seq<Pod>>): Outcome<seq<Pod>> {
    var ready := if pods.None? then [] else ReadyPods(pods.value);
    if sts.None? || sts.value.None? || replicas.None? then Panicked(OtherPanic)
    else if sts.value != replicas then Panicked(OperatorError(CODE_ERR_UNKNOW, "cr replicas is not equal ss replicas"))
    else if |ready| < Half(replicas.value + 1) then
      Panicked(OperatorError(CODE_ERR_UNKNOW, "The number of ready pods is too less"))
    else Returned(ready)
  }

  /** The check passes exactly when the replicas agree and at least half of them are ready. */
  lemma KindPassesIff(replicas: Option<int>, sts: Option<Option<int>>, pods: Option<seq<Pod>>)
    requires replicas.Some? ==> replicas.value >= 0
    ensures KindCheck(replicas, sts, pods).Returned? <==>
      && replicas.Some? && sts == Some(replicas)
      && 2 * |if pods.None? then [] else ReadyPods(pods.value)| >= replicas.value
    ensures KindCheck(replicas, sts, pods).Returned? ==>
      KindCheck(replicas, sts, pods).value == if pods.None? then [] else ReadyPods(pods.value)
  {
  }

  /**
    How the check ends when it does not pass: with a fault or a plain error where the StatefulSet or a replica count is
    missing, otherwise with the unknown-error code, whether the replicas differ or too few pods are ready.
   */
  lemma KindFails(replicas: Option<int>, sts: Option<Option<int>>, pods: Option<seq<Pod>>)
    ensures KindCheck(replicas, sts, pods) == Panicked(OtherPanic) <==>
      sts.None? || sts.value.None? || replicas.None?
    ensures KindCheck(replicas, sts, pods).Panicked? && KindCheck(replicas, sts, pods).panic.OperatorError? <==>
      && sts.Some? && sts.value.Some? && replicas.Some?
      && (sts.value != replicas
          || |if pods.None? then [] else ReadyPods(pods.value)| < Half(replicas.value + 1))
    ensures KindCheck(replicas, sts, pods).Panicked? && KindCheck(replicas, sts, pods).panic.OperatorError? ==>
      KindCheck(replicas, sts, pods).panic.code == -1
  {
    hide ReadyPods;
  }

  /** Pods of different names, all from `names`: what listing the pods of one StatefulSet can give. */
  ghost predicate ListedFrom(pods: seq<Pod>, names: set<string>) {
    && (forall i | 0 <= i < |pods| :: pods[i].name in names)
    && (forall i, j | 0 <= i < j < |pods| :: pods[i].name != pods[j].name)
  }

  ghost function Names(pods: seq<Pod>): set<string> { set p | p in pods :: p.name }

  /** The ready pods of such a list are again such a list. */
  lemma {:induction false} ReadyListed(pods: seq<Pod>, names: set<string>)
    requires ListedFrom(pods, names)
    ensures ListedFrom(ReadyPods(pods), names)
    ensures forall p | p in ReadyPods(pods) :: p in pods
  {
    if pods != [] {
      var front, last := pods[..|pods| - 1], pods[|pods| - 1];
      ReadyListed(front, names);
      var ready := ReadyPods(front);
      forall i | 0 <= i < |ready| ensures ready[i].name != last.name {
        assert ready[i] in front;
      }
    }
  }

  lemma {:induction false} NamesCount(pods: seq<Pod>, names: set<string>)
    requires ListedFrom(pods, names)
    ensures Names(pods) <= names && |Names(pods)| == |pods|
  {
    if pods != [] {
      var front, last := pods[..|pods| - 1], pods[|pods| - 1];
      NamesCount(front, names);
      assert last.name !in Names(front);
      assert Names(pods) == Names(front) + {last.name} by { assert pods == front + [last]; }
    }
  }

  /** For an odd number of replicas any two checks that pass, whenever they are made, have returned a common pod. */
  lemma PassingChecksMeet(names: set<string>, sts: Option<Option<int>>, pods: seq<Pod>,
                          laterSts: Option<Option<int>>, laterPods: seq<Pod>)
    requires ListedFrom(pods, names) && ListedFrom(laterPods, names) && |names| % 2 == 1
    requires KindCheck(Some(|names|), sts, Some(pods)).Returned?
        && KindCheck(Some(|names|), laterSts, Some(laterPods)).Returned?
    ensures exists p, q :: p in KindCheck(Some(|names|), sts, Some(pods)).value
                        && q in KindCheck(Some(|names|), laterSts, Some(laterPods)).value && p.name == q.name
  {
    hide ReadyPods;
    var a, b := ReadyPods(pods), ReadyPods(laterPods);
    ReadyListed(pods, names);
    ReadyListed(laterPods, names);
    NamesCount(a, names);
    NamesCount(b, names);
    SetsMeet(names, Names(a), Names(b));
    var name :| name in Names(a) * Names(b);
    var p :| p in a && p.name == name;
    var q :| q in b && q.name == name;
  }

  lemma OneReady(p: Pod)
    requires IsReady(p.conditions)
    ensures ReadyPods([p]) == [p]
  {
    hide IsReady;
    assert [p][..0] == [];
  }

  /** And for an even number two passing checks may have no pod in common. */
  lemma PassingChecksMayMiss(p: Pod, q: Pod)
    requires IsReady(p.conditions) && IsReady(q.conditions) && p.name != q.name
    ensures ListedFrom([p], {p.name, q.name}) && ListedFrom([q], {p.name, q.name})
    ensures KindCheck(Some(2), Some(Some(2)), Some([p])) == Returned([p])
    ensures KindCheck(Some(2), Some(Some(2)), Some([q])) == Returned([q])
  {
    hide IsReady, ReadyPods;
    OneReady(p);
    OneReady(q);
  }

  lemma SetsMeet<T>(all: set<T>, a: set<T>, b: set<T>)
    requires a <= all && b <= all && 2 * |a| > |all| && 2 * |b| > |all|
    ensures a * b != {}
  {
    if a * b == {} {
      assert |a + b| == |a| + |b|;
      SubsetSize(a + b, all);
    }
  }

  lemma SubsetSize<T>(a: set<T>, all: set<T>)
    requires a <= all
    ensures |a| <= |all|
  {
    assert all == a + (all - a);
  }

  // ---------------------------------------------------------------- leader agreement

  /** How far a check has come: the failure it stopped at, the leader so far, and what it wrote to the status. */
  datatype Scan = Scan(failure: Option<string>, leader: string, version: string, conditions: seq<Condition>)

  function ScanServer(s: Scan, svc: Server): Scan {
    if svc.state != "UP" then s.(failure := Some("node is not up"))
    else if s.leader != "" && s.leader != svc.leader then s.(failure := Some("leader not equal"))
    else s.(leader := svc.leader, version := svc.version)
  }

  function ScanServers(s: Scan, servers: seq<Server>): Scan {
    if servers == [] then s
    else
      var before := ScanServers(s, servers[..|servers| - 1]);
      if before.failure.Some? then before else ScanServer(before, servers[|servers| - 1])
  }

  function ConditionFor(pod: Pod, leader: string): Condition {
    Condition(if LeaderName(leader) == pod.name then "leader" else "follower", "true", pod.ip, pod.name, pod.node)
  }

  function ScanPod(s: Scan, pod: Pod, replicas: int): Scan {
    if pod.view.None? then s.(failure := Some("cluster nodes unreachable"))
    else if |pod.view.value| != replicas then s.(failure := Some("server num is not equal"))
    else
      var after := ScanServers(s, pod.view.value);
      if after.failure.Some? then after
      else after.(conditions := after.conditions + [ConditionFor(pod, after.leader)])
  }

  function ScanPods(version: string, pods: seq<Pod>, replicas: int): Scan {
    if pods == [] then Scan(None, "", version, [])
    else
      var before := ScanPods(version, pods[..|pods| - 1], replicas);
      if before.failure.Some? then before else ScanPod(before, pods[|pods| - 1], replicas)
  }

  method CheckNacos(nacos: Nacos, pods: seq<Pod>) returns (r: Outcome<()>)
    requires nacos.spec.replicas.Some?
    modifies nacos`status
    ensures var scan := ScanPods(old(nacos.status.version), pods, nacos.spec.replicas.value);
      && nacos.status == old(nacos.status).(conditions := scan.conditions, version := scan.version)
      && r == if scan.failure.Some? then Panicked(OperatorError(CODE_CLUSTER_FAILE, scan.failure.value))
          else Returned(())
  {
    var replicas := nacos.spec.replicas.value;
    var leader := "";
    nacos.status := nacos.status.(conditions := []);
    for i := 0 to |pods|
      invariant nacos.spec == old(nacos.spec)
      invariant nacos.status
          == old(nacos.status).(conditions := nacos.status.conditions, version := nacos.status.version)
      invariant ScanPods(old(nacos.status.version), pods[..i], replicas)
             == Scan(None, leader, nacos.status.version, nacos.status.conditions)
    {
      assert pods[..i + 1][..i] == pods[..i];
      ScanStops(old(nacos.status.version), pods, i + 1, replicas);
      var pod := pods[i];
      ghost var start := Scan(None, leader, nacos.status.version, nacos.status.conditions);
      if pod.view.None? {
        return Panicked(OperatorError(CODE_CLUSTER_FAILE, "cluster nodes unreachable"));
      }
      var servers := pod.view.value;
      if |servers| != replicas {
        return Panicked(OperatorError(CODE_CLUSTER_FAILE, "server num is not equal"));
      }
      for j := 0 to |servers|
        invariant nacos.spec == old(nacos.spec)
        invariant nacos.status == old(nacos.status).(conditions := start.conditions, version := nacos.status.version)
        invariant ScanServers(start, servers[..j]) == Scan(None, leader, nacos.status.version, start.conditions)
      {
        assert servers[..j + 1][..j] == servers[..j];
        ServerScanStops(start, servers, j + 1);
        var svc := servers[j];
        if svc.state != "UP" {
          return Panicked(OperatorError(CODE_CLUSTER_FAILE, "node is not up"));
        }
        if leader != "" {
          if leader != svc.leader {
            return Panicked(OperatorError(CODE_CLUSTER_FAILE, "leader not equal"));
          }
        } else {
          leader := svc.leader;
        }
        nacos.status := nacos.status.(version := svc.version);
      }
      assert servers[..|servers|] == servers;
      nacos.status := nacos.status.(conditions := nacos.status.conditions + [ConditionFor(pod, leader)]);
    }
    assert pods[..|pods|] == pods;
    return Returned(());
  }

  /** A scan that has failed stays as it is. */
  lemma {:induction false} ScanStops(version: string, pods: seq<Pod>, n: nat, replicas: int)
    requires n <= |pods|
    ensures ScanPods(version, pods[..n], replicas).failure.Some? ==>
        ScanPods(version, pods, replicas) == ScanPods(version, pods[..n], replicas)
    decreases |pods|
  {
    if n == |pods| {
      assert pods[..n] == pods;
    } else {
      ScanStops(version, pods[..|pods| - 1], n, replicas);
      assert pods[..|pods| - 1][..n] == pods[..n];
    }
  }

  lemma {:induction false} ServerScanStops(s: Scan, servers: seq<Server>, n: nat)
    requires n <= |servers|
    ensures ScanServers(s, servers[..n]).failure.Some? ==> ScanServers(s, servers) == ScanServers(s, servers[..n])
    decreases |servers|
  {
    if n == |servers| {
      assert servers[..n] == servers;
    } else {
      ServerScanStops(s, servers[..|servers| - 1], n);
      assert servers[..|servers| - 1][..n] == servers[..n];
    }
  }
}
