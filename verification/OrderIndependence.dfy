/** Whatever order the maps are ranged over, a merged list comes out the same, and this is what it holds. */
module OrderIndependence {
  import opened Text
  import opened Sorting
  import opened KeyedMerge
  import opened MergeLaws
  import opened StringUnion
  import opened PodModel
  import opened ContainerLaws
  import opened ContainerMerge
  import opened AliasMerge
  import opened ClaimMerge

  /** Strictly sorted, the keys of both lists and no others, the last duplicates combined under each. */
  ghost predicate HoldsMerge<T>(r: seq<T>, a: seq<T>, b: seq<T>, key: T -> string, combine: (T, T) -> T) {
    && Ascending(KeysOf(r, key))
    && (forall k :: k in KeysOf(r, key) <==> WithKey(a, key, k) != [] || WithKey(b, key, k) != [])
    && (forall i | 0 <= i < |r| :: IsMergeOf(r[i], a, b, key, combine))
  }

  /** `r` is what every order of the range gives, and no order gives anything else. */
  ghost predicate OnlyOutcome<T(!new)>(r: seq<T>, a: seq<T>, b: seq<T>, key: T -> string, combine: (T, T) -> T) {
    forall s :: Produces(MergeMaps(IndexBy(a, key), IndexBy(b, key), combine), key, s) <==> s == r
  }

  lemma OutcomeOfKeyed<T(!new)>(a: seq<T>, b: seq<T>, key: T -> string, combine: (T, T) -> T)
    requires KeepsKey(a, b, key, combine)
    ensures OnlyOutcome(MergeBy(a, b, key, combine), a, b, key, combine)
    ensures HoldsMerge(MergeBy(a, b, key, combine), a, b, key, combine)
  {
    var m := MergeMaps(IndexBy(a, key), IndexBy(b, key), combine);
    forall s ensures Produces(m, key, s) <==> s == Listing(m) {
      WellKeyedOutcome(m, key, s);
    }
    MergeContents(a, b, key, combine);
  }

  lemma EnvsOutcome(a: seq<EnvVar>, b: seq<EnvVar>)
    ensures OnlyOutcome(MergeEnvs(a, b), a, b, EnvName, MergeEnv)
        && HoldsMerge(MergeEnvs(a, b), a, b, EnvName, MergeEnv)
  {
    EnvKeepsName(a, b);
    OutcomeOfKeyed(a, b, EnvName, MergeEnv);
  }

  lemma PortsOutcome(a: seq<ContainerPort>, b: seq<ContainerPort>)
    ensures OnlyOutcome(MergePorts(a, b), a, b, PortName, MergePort)
        && HoldsMerge(MergePorts(a, b), a, b, PortName, MergePort)
  {
    PortKeepsName(a, b);
    OutcomeOfKeyed(a, b, PortName, MergePort);
  }

  lemma DevicesOutcome(a: seq<VolumeDevice>, b: seq<VolumeDevice>)
    ensures OnlyOutcome(MergeDevices(a, b), a, b, DeviceName, MergeDevice)
         && HoldsMerge(MergeDevices(a, b), a, b, DeviceName, MergeDevice)
  {
    DeviceKeepsName(a, b);
    OutcomeOfKeyed(a, b, DeviceName, MergeDevice);
  }

  lemma MountsOutcome(a: seq<VolumeMount>, b: seq<VolumeMount>)
    requires KeepsKey(a, b, MountKey, MergeMount)
    ensures OnlyOutcome(MergeMounts(a, b), a, b, MountKey, MergeMount)
         && HoldsMerge(MergeMounts(a, b), a, b, MountKey, MergeMount)
  {
    OutcomeOfKeyed(a, b, MountKey, MergeMount);
  }

  /** An override replaces the toleration of the same key whole. */
  lemma TolerationsOutcome(a: seq<Toleration>, b: seq<Toleration>)
    ensures OnlyOutcome(MergeTolerations(a, b), a, b, TolerationKey, Replace)
         && HoldsMerge(MergeTolerations(a, b), a, b, TolerationKey, Replace)
  {
    TolerationsKeepKey(a, b);
    OutcomeOfKeyed(a, b, TolerationKey, Replace);
  }

  lemma ClaimsOutcome(a: seq<Claim>, b: seq<Claim>)
    ensures OnlyOutcome(MergeClaims(a, b), a, b, ClaimName, MergeClaim)
        && HoldsMerge(MergeClaims(a, b), a, b, ClaimName, MergeClaim)
  {
    ClaimsKeepName(a, b);
    OutcomeOfKeyed(a, b, ClaimName, MergeClaim);
  }

  /**
    What is listed for one address: the last default's names, then those of every override entry, in order, each
    once.
   */
  ghost function GatheredNames(a: seq<HostAlias>, b: seq<HostAlias>, ip: string): seq<string>
    requires WithKey(a, AliasIP, ip) != [] || WithKey(b, AliasIP, ip) != []
  {
    var fromA, fromB := WithKey(a, AliasIP, ip), WithKey(b, AliasIP, ip);
    if fromA == [] then Folded(fromB) else Gather(Last(fromA).hostnames, fromB)
  }

  lemma AliasesOutcome(a: seq<HostAlias>, b: seq<HostAlias>)
    ensures var r := MergeAliases(a, b);
      && (forall s :: Produces(Absorb(IndexBy(a, AliasIP), b), AliasIP, s) <==> s == r)
      && Ascending(KeysOf(r, AliasIP))
      && (forall ip :: ip in KeysOf(r, AliasIP) <==> WithKey(a, AliasIP, ip) != [] || WithKey(b, AliasIP, ip) != [])
      && (forall i | 0 <= i < |r| ::
            && (WithKey(a, AliasIP, r[i].ip) != [] || WithKey(b, AliasIP, r[i].ip) != [])
            && r[i].hostnames == GatheredNames(a, b, r[i].ip))
  {
    hide Folded, Gather, WithKey, Absorb, IndexBy, Produces;
    var A := IndexBy(a, AliasIP);
    IndexSound(a, AliasIP);
    AbsorbWellKeyed(A, b);
    var m := Absorb(A, b);
    var ks, r := SortedKeys(m.Keys), Listing(m);
    forall s ensures Produces(m, AliasIP, s) <==> s == r {
      WellKeyedOutcome(m, AliasIP, s);
    }
    forall i | 0 <= i < |r| ensures KeysOf(r, AliasIP)[i] == ks[i] && r[i] == m[ks[i]] && ks[i] in m {
      assert ks[i] in ks;
      assert AliasIP(m[ks[i]]) == ks[i];
    }
    assert KeysOf(r, AliasIP) == ks;
    forall ip ensures ip in m <==> WithKey(a, AliasIP, ip) != [] || WithKey(b, AliasIP, ip) != [] {
      AbsorbAt(A, b, ip);
      IndexLast(a, AliasIP, ip);
    }
    forall i | 0 <= i < |r| ensures r[i].hostnames == GatheredNames(a, b, ks[i]) {
      AbsorbAt(A, b, ks[i]);
      IndexLast(a, AliasIP, ks[i]);
    }
  }

  // ---------------------------------------------------------------- whole containers

  /** For every name of both lists, mounts that share a key after their merge are equal. */
  ghost predicate MountsDecided(a: seq<Container>, b: seq<Container>) {
    var A, B := IndexBy(a, ContainerName), IndexBy(b, ContainerName);
    forall k | k in A && k in B :: KeyDecidesValue(MountMap(A[k].volumeMounts, B[k].volumeMounts), MountKey)
  }

  lemma DecidedOutcome(d: Container, o: Container, c: Container, e: Container)
    requires KeyDecidesValue(MountMap(d.volumeMounts, o.volumeMounts), MountKey)
    requires ContainerOutcome(d, o, c) && ContainerOutcome(d, o, e)
    ensures c == e
  {
    hide MergeContainer, Produces, MergeMounts, MountMap, KeyDecidesValue;
    MountsOrderIndependentIff(d.volumeMounts, o.volumeMounts);
  }

  lemma DecidedOutcomes(a: seq<Container>, b: seq<Container>, r: seq<Container>, s: seq<Container>)
    requires MountsDecided(a, b) && ContainersOutcome(a, b, r) && ContainersOutcome(a, b, s)
    ensures r == s
  {
    hide ContainerOutcome, KeyDecidesValue, MountMap, IndexBy;
    var A, B := IndexBy(a, ContainerName), IndexBy(b, ContainerName);
    assert |r| == |KeysOf(r, ContainerName)| == |KeysOf(s, ContainerName)| == |s|;
    forall i | 0 <= i < |r| ensures r[i] == s[i] {
      var k := ContainerName(r[i]);
      assert KeysOf(r, ContainerName)[i] == k == KeysOf(s, ContainerName)[i] == ContainerName(s[i]);
      assert EntryOutcome(A, B, k, r[i]) && EntryOutcome(A, B, k, s[i]);
      if k in A && k in B {
        DecidedOutcome(A[k], B[k], r[i], s[i]);
      }
    }
  }

  /** Where mounts of one key differ, one container has two outcomes. */
  lemma UndecidedOutcome(d: Container, o: Container) returns (c: Container, e: Container)
    requires !KeyDecidesValue(MountMap(d.volumeMounts, o.volumeMounts), MountKey) && d.name == o.name
    ensures ContainerOutcome(d, o, c) && ContainerOutcome(d, o, e) && c != e && c.name == e.name == d.name
  {
    hide MergeEnvs, MergePorts, MergeDevices, MergeMounts, Produces;
    MountsOrderIndependentIff(d.volumeMounts, o.volumeMounts);
    var m := MountMap(d.volumeMounts, o.volumeMounts);
    var r, s :| Produces(m, MountKey, r) && Produces(m, MountKey, s) && r != s;
    var merged := MergeContainer(d, o);
    c, e := merged.(volumeMounts := r), merged.(volumeMounts := s);
  }

  lemma ReplaceEntry(a: seq<Container>, b: seq<Container>, r: seq<Container>, i: nat, c: Container)
    requires ContainersOutcome(a, b, r) && i < |r| && c.name == r[i].name
    requires EntryOutcome(IndexBy(a, ContainerName), IndexBy(b, ContainerName), c.name, c)
    ensures ContainersOutcome(a, b, r[i := c])
  {
    hide EntryOutcome;
    assert KeysOf(r[i := c], ContainerName) == KeysOf(r, ContainerName) by {
      assert ContainerName(c) == ContainerName(r[i]);
    }
  }

  /**
    `Containers` gives one list for every order of every range exactly when all merged mounts are decided by their
    keys.
   */
  lemma ContainersOrderIndependentIff(a: seq<Container>, b: seq<Container>)
    ensures (forall r, s | ContainersOutcome(a, b, r) && ContainersOutcome(a, b, s) :: r == s) <==> MountsDecided(a, b)
  {
    hide ContainersOutcome, ContainerOutcome, KeyDecidesValue, MountMap;
    var A, B := IndexBy(a, ContainerName), IndexBy(b, ContainerName);
    if MountsDecided(a, b) {
      forall r, s | ContainersOutcome(a, b, r) && ContainersOutcome(a, b, s) ensures r == s {
        DecidedOutcomes(a, b, r, s);
      }
    } else {
      var k :| k in A && k in B && !KeyDecidesValue(MountMap(A[k].volumeMounts, B[k].volumeMounts), MountKey);
      IndexSound(a, ContainerName);
      IndexSound(b, ContainerName);
      assert ContainerName(A[k]) == k == ContainerName(B[k]);
      var c, e := UndecidedOutcome(A[k], B[k]);
      var r := SomeOutcome(a, b);
      var i := OutcomeAt(a, b, r, k);
      ReplaceEntry(a, b, r, i, c);
      ReplaceEntry(a, b, r, i, e);
      assert r[i := c][i] != r[i := e][i];
    }
  }

  lemma OutcomeAt(a: seq<Container>, b: seq<Container>, r: seq<Container>, k: string) returns (i: nat)
    requires ContainersOutcome(a, b, r)
    requires k in IndexBy(a, ContainerName) && k in IndexBy(b, ContainerName)
    ensures i < |r| && r[i].name == k
  {
    hide EntryOutcome;
    assert k in KeysOf(r, ContainerName);
    i :| 0 <= i < |r| && KeysOf(r, ContainerName)[i] == k;
    assert ContainerName(r[i]) == k;
  }

  // ---------------------------------------------------------------- when it is the pure merge

  lemma KeyedOutcomes(a: seq<Container>, b: seq<Container>)
    requires MountsKeepKeys(a, b)
    ensures forall r :: ContainersOutcome(a, b, r) <==> r == MergeContainers(a, b)
  {
    hide ContainersOutcome, MergeContainers, MountsKeepKeys;
    forall r | ContainersOutcome(a, b, r) ensures r == MergeContainers(a, b) {
      PureOutcome(a, b, r);
    }
    var some := SomeOutcome(a, b);
    PureOutcome(a, b, some);
  }

  /** With mounts that keep their keys the only outcome is the pure merge, with the contents the laws tell. */
  lemma ContainersListed(a: seq<Container>, b: seq<Container>)
    requires MountsKeepKeys(a, b)
    ensures forall r :: ContainersOutcome(a, b, r) <==> r == MergeContainers(a, b)
    ensures HoldsMerge(MergeContainers(a, b), a, b, ContainerName, MergeContainer)
  {
    hide ContainersOutcome, MergeContainers, HoldsMerge, MountsKeepKeys;
    KeyedOutcomes(a, b);
    ListedContents(a, b);
  }

  lemma ListedContents(a: seq<Container>, b: seq<Container>)
    ensures HoldsMerge(MergeContainers(a, b), a, b, ContainerName, MergeContainer)
  {
    ContainerKeepsName(a, b);
    OutcomeOfKeyed(a, b, ContainerName, MergeContainer);
  }

  // ---------------------------------------------------------------- defaults that cannot collide

  /** No component of these mounts holds the separator of their key. */
  ghost predicate PlainMounts(ms: seq<VolumeMount>) {
    forall m | m in ms :: '_' !in m.name && '_' !in m.mountPath && '_' !in m.subPath
  }

  /** The key of a plain mount can only be split one way. */
  lemma PlainKey(x: VolumeMount, y: VolumeMount)
    requires '_' !in x.name && '_' !in x.mountPath && '_' !in x.subPath && MountKey(x) == MountKey(y)
    ensures SameTarget(x, y)
  {
    var key := MountKey(x);
    var p, q := |y.name|, |y.name| + 1 + |y.mountPath|;
    assert key[|x.name|] == '_' == key[|x.name| + 1 + |x.mountPath|];
    assert key[p] == '_' == key[q];
    forall i | 0 <= i < |key| && i != |x.name| && i != |x.name| + 1 + |x.mountPath| ensures key[i] != '_' {
      if i < |x.name| {
        assert key[i] == x.name[i];
      } else if |x.name| < i < |x.name| + 1 + |x.mountPath| {
        assert key[i] == x.mountPath[i - |x.name| - 1];
      } else if i > |x.name| + 1 + |x.mountPath| {
        assert key[i] == x.subPath[i - |x.name| - |x.mountPath| - 2];
      }
    }
    assert p == |x.name| && q == |x.name| + 1 + |x.mountPath|;
    assert x.name == key[..p] == y.name;
    assert x.mountPath == key[p + 1..q] == y.mountPath;
    assert x.subPath == key[q + 1..] == y.subPath;
  }

  lemma PlainMountsKeepKeys(a: seq<VolumeMount>, b: seq<VolumeMount>)
    requires PlainMounts(a)
    ensures KeepsKey(a, b, MountKey, MergeMount)
  {
    hide MountKey, IndexBy;
    var A, B := IndexBy(a, MountKey), IndexBy(b, MountKey);
    IndexSound(a, MountKey);
    IndexSound(b, MountKey);
    forall k | k in A && k in B ensures MountKey(MergeMount(A[k], B[k])) == k {
      assert A[k] in a && MountKey(A[k]) == k == MountKey(B[k]);
      PlainKey(A[k], B[k]);
      SameKey(MergeMount(A[k], B[k]), A[k]);
    }
  }

  lemma SameKey(x: VolumeMount, y: VolumeMount)
    requires SameTarget(x, y)
    ensures MountKey(x) == MountKey(y)
  {
  }

  /** So plain defaults keep their keys under any override. */
  lemma PlainKeepKeys(a: seq<Container>, b: seq<Container>)
    requires forall c | c in a :: PlainMounts(c.volumeMounts)
    ensures MountsKeepKeys(a, b)
  {
    hide KeepsKey, IndexBy, PlainMounts;
    var A, B := IndexBy(a, ContainerName), IndexBy(b, ContainerName);
    IndexSound(a, ContainerName);
    forall k | k in A && k in B ensures KeepsKey(A[k].volumeMounts, B[k].volumeMounts, MountKey, MergeMount) {
      assert A[k] in a;
      PlainMountsKeepKeys(A[k].volumeMounts, B[k].volumeMounts);
    }
  }

  /**
    Defaults whose mounts hold no underscore, like all the operator builds itself: whatever the override,
    the merged containers do not depend on any map order.
   */
  lemma PlainDefaultsAreOrderIndependent(a: seq<Container>, b: seq<Container>)
    requires forall c | c in a :: PlainMounts(c.volumeMounts)
    ensures forall r :: ContainersOutcome(a, b, r) <==> r == MergeContainers(a, b)
  {
    hide ContainersOutcome, MergeContainers, MountsKeepKeys, PlainMounts;
    PlainKeepKeys(a, b);
    KeyedOutcomes(a, b);
  }
}
