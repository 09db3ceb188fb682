/** What it means that `CheckNacos` completes, and which pod it then calls the leader. */
module HealthLaws {
  import opened PodModel
  import opened CustomResource
  import opened ServerList
  import opened Health

  /** Every pod answers, and every answer lists exactly `replicas` servers, all of them up. */
  ghost predicate AllUp(pods: seq<Pod>, replicas: int) {
    forall i | 0 <= i < |pods| ::
        pods[i].view.Some? && |pods[i].view.value| == replicas && ServersUp(pods[i].view.value)
  }

  ghost predicate ServersUp(servers: seq<Server>) {
    forall j | 0 <= j < |servers| :: servers[j].state == "UP"
  }

  function Leaders(servers: seq<Server>): (r: seq<string>)
    ensures |r| == |servers| && forall i | 0 <= i < |r| :: r[i] == servers[i].leader
  {
    seq(|servers|, i requires 0 <= i < |servers| => servers[i].leader)
  }

  /** Every leader any pod reports, in the order they are read. */
  function AllLeaders(pods: seq<Pod>): seq<string> {
    if pods == [] then []
    else
      AllLeaders(pods[..|pods| - 1]) +
      if pods[|pods| - 1].view.Some? then Leaders(pods[|pods| - 1].view.value) else []
  }

  /** Once a leader is named, everything read later names the same one. */
  ghost predicate Agreed(leaders: seq<string>) {
    forall i, j | 0 <= i < j < |leaders| && leaders[i] != "" :: leaders[j] == leaders[i]
  }

  /** The first leader named, or none. */
  function FirstNamed(leaders: seq<string>): string {
    if leaders == [] then ""
    else if FirstNamed(leaders[..|leaders| - 1]) != "" then FirstNamed(leaders[..|leaders| - 1])
    else leaders[|leaders| - 1]
  }

  lemma {:induction false} FirstNamedAt(leaders: seq<string>) returns (i: nat)
    ensures i <= |leaders| && forall j | 0 <= j < i :: leaders[j] == ""
    ensures FirstNamed(leaders) == if i < |leaders| then leaders[i] else ""
    ensures i < |leaders| ==> leaders[i] != ""
  {
    i := 0;
    if leaders != [] {
      i := FirstNamedAt(leaders[..|leaders| - 1]);
      if i == |leaders| - 1 && leaders[i] == "" {
        i := |leaders|;
      }
    }
  }

  lemma FirstNamedMeaning(leaders: seq<string>)
    ensures var l := FirstNamed(leaders);
      && (l == "" <==> forall i | 0 <= i < |leaders| :: leaders[i] == "")
      && (l != "" ==> l in leaders)
      && (Agreed(leaders) ==> forall i | 0 <= i < |leaders| :: leaders[i] == "" || leaders[i] == l)
  {
    hide FirstNamed;
    var i := FirstNamedAt(leaders);
  }

  lemma AgreedNext(leaders: seq<string>, next: string)
    ensures Agreed(leaders + [next]) <==> Agreed(leaders) && (FirstNamed(leaders) == "" || next == FirstNamed(leaders))
  {
    var all := leaders + [next];
    FirstNamedMeaning(leaders);
    assert forall i | 0 <= i < |leaders| :: all[i] == leaders[i];
    if Agreed(all) && FirstNamed(leaders) != "" {
      var i :| 0 <= i < |leaders| && leaders[i] == FirstNamed(leaders);
      assert all[|leaders|] == all[i];
    }
  }

  lemma AgreedPrefix(a: seq<string>, b: seq<string>)
    requires Agreed(a + b)
    ensures Agreed(a)
  {
    assert forall i | 0 <= i < |a| :: (a + b)[i] == a[i];
  }

  /** Agreement in full: a run of empty reports, and after it one name only. */
  lemma AgreedShape(leaders: seq<string>) returns (k: nat)
    requires Agreed(leaders)
    ensures k <= |leaders|
    ensures forall i | 0 <= i < k :: leaders[i] == ""
    ensures forall i | k <= i < |leaders| :: leaders[i] == FirstNamed(leaders) != ""
  {
    FirstNamedMeaning(leaders);
    k := 0;
    while k < |leaders| && leaders[k] == ""
      invariant k <= |leaders| && forall i | 0 <= i < k :: leaders[i] == ""
    {
      k := k + 1;
    }
    if k < |leaders| {
      assert leaders[k] == FirstNamed(leaders);
      forall i | k <= i < |leaders| ensures leaders[i] == FirstNamed(leaders) {
        if k < i { assert leaders[i] == leaders[k]; }
      }
    }
  }

  // ---------------------------------------------------------------- the scan, in these terms

  lemma LeadersNext(servers: seq<Server>, earlier: seq<string>)
    requires servers != []
    ensures earlier + Leaders(servers)
        == (earlier + Leaders(servers[..|servers| - 1])) + [servers[|servers| - 1].leader]
  {
  }

  lemma UpNext(servers: seq<Server>)
    requires servers != []
    ensures ServersUp(servers) <==> ServersUp(servers[..|servers| - 1]) && servers[|servers| - 1].state == "UP"
  {
    assert forall j | 0 <= j < |servers| - 1 :: servers[..|servers| - 1][j] == servers[j];
  }

  lemma FirstNamedNext(leaders: seq<string>, next: string)
    ensures FirstNamed(leaders + [next]) == if FirstNamed(leaders) != "" then FirstNamed(leaders) else next
  {
    assert (leaders + [next])[..|leaders|] == leaders;
  }

  /** One more server, after leaders that agree. */
  lemma ServerScanned(s: Scan, svc: Server, before: seq<string>)
    requires s.failure.None? && Agreed(before) && s.leader == FirstNamed(before)
    ensures var r, all := ScanServer(s, svc), before + [svc.leader];
      && (r.failure.None? <==> svc.state == "UP" && Agreed(all))
      && (r.failure.None? ==> r.leader == FirstNamed(all) && r.conditions == s.conditions && r.version == svc.version)
  {
    hide Agreed, FirstNamed;
    AgreedNext(before, svc.leader);
    FirstNamedNext(before, svc.leader);
  }

  lemma {:induction false} ServersScanned(s: Scan, servers: seq<Server>, earlier: seq<string>)
    requires s.failure.None? && Agreed(earlier) && s.leader == FirstNamed(earlier)
    ensures var r, all := ScanServers(s, servers), earlier + Leaders(servers);
      && (r.failure.None? <==> ServersUp(servers) && Agreed(all))
      && (r.failure.None? ==> r.leader == FirstNamed(all) && r.conditions == s.conditions)
      && (r.failure.None? && servers != [] ==> r.version == servers[|servers| - 1].version)
  {
    if servers == [] {
      assert earlier + Leaders(servers) == earlier;
    } else {
      hide Agreed, FirstNamed, ServersUp, ScanServer;
      var front, last := servers[..|servers| - 1], servers[|servers| - 1];
      ServersScanned(s, front, earlier);
      LeadersNext(servers, earlier);
      UpNext(servers);
      if ScanServers(s, front).failure.None? {
        ServerScanned(ScanServers(s, front), last, earlier + Leaders(front));
      } else if Agreed(earlier + Leaders(servers)) {
        AgreedPrefix(earlier + Leaders(front), [last.leader]);
      }
    }
  }

  lemma {:induction false} PodsScanned(version: string, pods: seq<Pod>, replicas: int)
    ensures var r, all := ScanPods(version, pods, replicas), AllLeaders(pods);
      && (r.failure.None? <==> AllUp(pods, replicas) && Agreed(all))
      && (r.failure.None? ==> r.leader == FirstNamed(all) && |r.conditions| == |pods|)
  {
    hide AllUp, ServersUp, FirstNamed, Agreed;
    if pods == [] {
      NoPods(replicas);
    } else {
      var front, last := pods[..|pods| - 1], pods[|pods| - 1];
      PodsScanned(version, front, replicas);
      AllUpNext(pods, replicas);
      var before := ScanPods(version, front, replicas);
      if last.view.Some? {
        if before.failure.None? { ServersScanned(before, last.view.value, AllLeaders(front)); }
        if Agreed(AllLeaders(pods)) { AgreedPrefix(AllLeaders(front), Leaders(last.view.value)); }
      }
    }
  }

  lemma NoPods(replicas: int)
    ensures AllUp([], replicas) && Agreed([]) && FirstNamed([]) == ""
  {
  }

  lemma AllUpNext(pods: seq<Pod>, replicas: int)
    requires pods != []
    ensures var last := pods[|pods| - 1];
      AllUp(pods, replicas) <==>
        AllUp(pods[..|pods| - 1], replicas) && last.view.Some? && |last.view.value| == replicas
            && ServersUp(last.view.value)
  {
    hide ServersUp;
    assert forall i | 0 <= i < |pods| - 1 :: pods[..|pods| - 1][i] == pods[i];
  }

  /** The check completes exactly when every answer is complete and up, and all answers agree on the leader. */
  lemma CheckCompletesIff(version: string, pods: seq<Pod>, replicas: int)
    ensures ScanPods(version, pods, replicas).failure.None? <==> AllUp(pods, replicas) && Agreed(AllLeaders(pods))
  {
    PodsScanned(version, pods, replicas);
  }

  lemma PodScanned(s: Scan, pod: Pod, replicas: int, earlier: seq<string>)
    requires s.failure.None? && Agreed(earlier) && s.leader == FirstNamed(earlier)
    requires ScanPod(s, pod, replicas).failure.None?
    ensures ScanPod(s, pod, replicas).conditions
         == s.conditions
             + [ConditionFor(pod, FirstNamed(earlier + if pod.view.Some? then Leaders(pod.view.value) else []))]
  {
    ServersScanned(s, pod.view.value, earlier);
  }

  lemma LastPodScanned(version: string, pods: seq<Pod>, replicas: int)
    requires pods != [] && ScanPods(version, pods, replicas).failure.None?
    ensures var front := ScanPods(version, pods[..|pods| - 1], replicas);
      && front.failure.None?
      && ScanPods(version, pods, replicas).conditions
         == front.conditions + [ConditionFor(pods[|pods| - 1], FirstNamed(AllLeaders(pods)))]
  {
    PodsScanned(version, pods[..|pods| - 1], replicas);
    PodScanned(ScanPods(version, pods[..|pods| - 1], replicas), pods[|pods| - 1], replicas,
        AllLeaders(pods[..|pods| - 1]));
  }

  /** One condition per ready pod, in order, each told from the leaders read up to that pod. */
  lemma {:induction false} ConditionOfScan(version: string, pods: seq<Pod>, replicas: int, i: nat)
    requires i < |pods| && ScanPods(version, pods, replicas).failure.None?
    ensures |ScanPods(version, pods, replicas).conditions| == |pods|
    ensures ScanPods(version, pods, replicas).conditions[i]
         == ConditionFor(pods[i], FirstNamed(AllLeaders(pods[..i + 1])))
    decreases |pods|
  {
    hide ScanPods, AllLeaders, FirstNamed, ConditionFor;
    PodsScanned(version, pods, replicas);
    PodsScanned(version, pods[..|pods| - 1], replicas);
    LastPodScanned(version, pods, replicas);
    if i < |pods| - 1 {
      ConditionOfScan(version, pods[..|pods| - 1], replicas, i);
      assert pods[..|pods| - 1][..i + 1] == pods[..i + 1];
    } else {
      assert pods[..i + 1] == pods;
    }
  }

  /** What a completed check writes of each ready pod, field by field. */
  lemma ConditionTells(version: string, pods: seq<Pod>, replicas: int, i: nat)
    requires i < |pods| && ScanPods(version, pods, replicas).failure.None?
    ensures |ScanPods(version, pods, replicas).conditions| == |pods|
    ensures var c := ScanPods(version, pods, replicas).conditions[i];
      && c.instance == pods[i].ip && c.podName == pods[i].name && c.nodeName == pods[i].node
      && c.status == "true" && c.kind in {"leader", "follower"}
  {
    ConditionOfScan(version, pods, replicas, i);
  }

  function Versions(servers: seq<Server>): (r: seq<string>)
    ensures |r| == |servers| && forall i | 0 <= i < |r| :: r[i] == servers[i].version
  {
    seq(|servers|, i requires 0 <= i < |servers| => servers[i].version)
  }

  /** Every server's version, in the order they are read. */
  function AllVersions(pods: seq<Pod>): seq<string> {
    if pods == [] then []
    else
      AllVersions(pods[..|pods| - 1]) +
      if pods[|pods| - 1].view.Some? then Versions(pods[|pods| - 1].view.value) else []
  }

  lemma {:induction false} ServersVersion(s: Scan, servers: seq<Server>)
    requires s.failure.None? && ScanServers(s, servers).failure.None?
    ensures ScanServers(s, servers).version == if servers == [] then s.version else servers[|servers| - 1].version
  {
    if servers != [] {
      ServersVersion(s, servers[..|servers| - 1]);
    }
  }

  /** A completed check leaves the version of the last server read, or the old one if there was none. */
  lemma {:induction false} VersionOfScan(version: string, pods: seq<Pod>, replicas: int)
    requires ScanPods(version, pods, replicas).failure.None?
    ensures var all := AllVersions(pods);
      ScanPods(version, pods, replicas).version == if all == [] then version else all[|all| - 1]
  {
    hide ScanServers, ConditionFor;
    if pods != [] {
      var front, last := pods[..|pods| - 1], pods[|pods| - 1];
      VersionOfScan(version, front, replicas);
      ServersVersion(ScanPods(version, front, replicas), last.view.value);
      var own := Versions(last.view.value);
      assert AllVersions(pods) == AllVersions(front) + own;
      assert own == [] ==> AllVersions(pods) == AllVersions(front);
    }
  }

  /** A check that fails leaves the conditions of the pods before the one it failed at, as a check of those would. */
  lemma {:induction false} FailedScan(version: string, pods: seq<Pod>, replicas: int) returns (n: nat)
    requires ScanPods(version, pods, replicas).failure.Some?
    ensures n < |pods|
    ensures ScanPods(version, pods[..n], replicas).failure.None?
    ensures ScanPods(version, pods, replicas).conditions == ScanPods(version, pods[..n], replicas).conditions
    ensures !AllUp(pods[..n + 1], replicas) || !Agreed(AllLeaders(pods[..n + 1]))
  {
    var front := pods[..|pods| - 1];
    if ScanPods(version, front, replicas).failure.Some? {
      n := FailedScan(version, front, replicas);
      assert front[..n] == pods[..n] && front[..n + 1] == pods[..n + 1];
    } else {
      n := |pods| - 1;
      assert pods[..n] == front && pods[..n + 1] == pods;
      PodsScanned(version, pods, replicas);
      FailedPod(ScanPods(version, front, replicas), pods[|pods| - 1], replicas);
    }
  }

  lemma FailedPod(s: Scan, pod: Pod, replicas: int)
    requires s.failure.None? && ScanPod(s, pod, replicas).failure.Some?
    ensures ScanPod(s, pod, replicas).conditions == s.conditions
  {
    if pod.view.Some? {
      ServersKeepConditions(s, pod.view.value);
    }
  }

  lemma {:induction false} ServersKeepConditions(s: Scan, servers: seq<Server>)
    ensures ScanServers(s, servers).conditions == s.conditions
  {
    if servers != [] {
      ServersKeepConditions(s, servers[..|servers| - 1]);
    }
  }

  // ---------------------------------------------------------------- at most one leader

  lemma {:induction false} LeadersOfPrefix(pods: seq<Pod>, i: nat)
    requires i <= |pods|
    ensures exists rest :: AllLeaders(pods) == AllLeaders(pods[..i]) + rest
    decreases |pods|
  {
    if i == |pods| {
      assert pods[..i] == pods;
      assert AllLeaders(pods) == AllLeaders(pods[..i]) + [];
    } else {
      var front := pods[..|pods| - 1];
      LeadersOfPrefix(front, i);
      assert front[..i] == pods[..i];
      var rest :| AllLeaders(front) == AllLeaders(pods[..i]) + rest;
      var more := if pods[|pods| - 1].view.Some? then Leaders(pods[|pods| - 1].view.value) else [];
      assert AllLeaders(pods) == AllLeaders(pods[..i]) + (rest + more);
    }
  }

  /** A leader named along the way is the leader of the whole. */
  lemma NamedEarly(pods: seq<Pod>, i: nat)
    requires i <= |pods| && Agreed(AllLeaders(pods)) && FirstNamed(AllLeaders(pods[..i])) != ""
    ensures FirstNamed(AllLeaders(pods[..i])) == FirstNamed(AllLeaders(pods))
  {
    var early, all := AllLeaders(pods[..i]), AllLeaders(pods);
    LeadersOfPrefix(pods, i);
    var rest :| all == early + rest;
    FirstNamedMeaning(early);
    FirstNamedMeaning(all);
    var j :| 0 <= j < |early| && early[j] == FirstNamed(early);
    assert all[j] == early[j];
  }

  ghost predicate DistinctNames(pods: seq<Pod>) {
    && (forall i | 0 <= i < |pods| :: pods[i].name != "")
    && (forall i, j | 0 <= i < j < |pods| :: pods[i].name != pods[j].name)
  }

  /** A pod is called leader exactly when it is the pod of the agreed leader, and that leader was known by then. */
  lemma LeaderMarkedIff(version: string, pods: seq<Pod>, replicas: int, i: nat)
    requires i < |pods| && ScanPods(version, pods, replicas).failure.None? && DistinctNames(pods)
    ensures |ScanPods(version, pods, replicas).conditions| == |pods|
    ensures ScanPods(version, pods, replicas).conditions[i].kind == "leader" <==>
      && FirstNamed(AllLeaders(pods[..i + 1])) != ""
      && LeaderName(FirstNamed(AllLeaders(pods))) == pods[i].name
  {
    ConditionOfScan(version, pods, replicas, i);
    PodsScanned(version, pods, replicas);
    var known := FirstNamed(AllLeaders(pods[..i + 1]));
    if known == "" {
      assert LeaderName("") == "";
    } else {
      NamedEarly(pods, i + 1);
    }
  }

  /** With distinct pod names at most one pod is called leader. */
  lemma AtMostOneLeader(version: string, pods: seq<Pod>, replicas: int, i: nat, j: nat)
    requires ScanPods(version, pods, replicas).failure.None? && DistinctNames(pods)
    requires i < |pods| && j < |pods|
    requires |ScanPods(version, pods, replicas).conditions| == |pods|
    requires ScanPods(version, pods, replicas).conditions[i].kind == "leader"
    requires ScanPods(version, pods, replicas).conditions[j].kind == "leader"
    ensures i == j
  {
    LeaderMarkedIff(version, pods, replicas, i);
    LeaderMarkedIff(version, pods, replicas, j);
  }

  /** The first pod's first answer already names a leader: then exactly the pod it names is called leader. */
  lemma LeaderNamedAtOnce(version: string, pods: seq<Pod>, replicas: int, i: nat)
    requires ScanPods(version, pods, replicas).failure.None? && DistinctNames(pods) && i < |pods|
    requires AllLeaders(pods) != [] && AllLeaders(pods)[0] != ""
    ensures |ScanPods(version, pods, replicas).conditions| == |pods|
    ensures ScanPods(version, pods, replicas).conditions[i].kind == "leader"
        <==> LeaderName(AllLeaders(pods)[0]) == pods[i].name
  {
    PodsScanned(version, pods, replicas);
    LeaderMarkedIff(version, pods, replicas, i);
    var all := AllLeaders(pods);
    FirstNamedMeaning(all);
    assert FirstNamed(all) == all[0];
    FirstPodSpeaks(pods, replicas, i);
  }

  lemma FirstPodSpeaks(pods: seq<Pod>, replicas: int, i: nat)
    requires i < |pods| && AllUp(pods, replicas) && AllLeaders(pods) != [] && AllLeaders(pods)[0] != ""
    ensures FirstNamed(AllLeaders(pods[..i + 1])) != ""
  {
    var early := AllLeaders(pods[..i + 1]);
    LeadersOfPrefix(pods, i + 1);
    var rest :| AllLeaders(pods) == early + rest;
    if replicas <= 0 {
      NoServersNoLeaders(pods, replicas);
    } else {
      assert pods[..i + 1][..i] == pods[..i];
      assert early != [];
    }
    FirstNamedMeaning(early);
    assert early[0] == AllLeaders(pods)[0];
  }

  lemma {:induction false} NoServersNoLeaders(pods: seq<Pod>, replicas: int)
    requires AllUp(pods, replicas) && replicas <= 0
    ensures AllLeaders(pods) == []
  {
    if pods != [] {
      var front := pods[..|pods| - 1];
      assert forall i | 0 <= i < |front| :: pods[i] == front[i];
      NoServersNoLeaders(front, replicas);
    }
  }

  /**
    The printed server list and the check fit together: when the agreed leader is the printed host of pod `i`
    with any port, only a pod named like it can be called leader.
   */
  lemma PrintedLeaderMarks(name: string, namespace: string, domain: string, i: nat, port: string,
                           version: string, pods: seq<Pod>, replicas: int, p: nat)
    requires '.' !in name && p < |pods| && DistinctNames(pods)
    requires ScanPods(version, pods, replicas).failure.None?
    requires FirstNamed(AllLeaders(pods)) == Host(name, namespace, domain, i) + ":" + port
    ensures |ScanPods(version, pods, replicas).conditions| == |pods|
    ensures ScanPods(version, pods, replicas).conditions[p].kind == "leader" ==> pods[p].name == PodName(name, i)
  {
    LeaderReadBackIff(name, namespace, domain, i, port);
    LeaderMarkedIff(version, pods, replicas, p);
  }
}
