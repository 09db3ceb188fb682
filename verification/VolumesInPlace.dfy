/** The loops of `Volumes` on the heap, for any sharing of source objects between the volumes of either list. */
module VolumesInPlace {
  import opened Text
  import opened Sorting
  import opened KeyedMerge
  import opened PodModel
  import opened VolumeMerge
  import opened VolumeLaws
  import opened VolumeSharing

  lemma HeapFits(all: seq<Volume>)
    ensures Fits(all, Values(all)) && AllItemsWellKeyed(Values(all))
  {
    hide SecretValue, ConfigMapValue;
    ValuesWellKeyed(all);
  }

  /** One turn of the first loop. */
  method OverlayIfNamed(v: Volume, overrideVolumesMap: map<string, Volume>, ghost overrides: map<string, VolumeValue>)
    returns (merged: Volume)
    requires overrideVolumesMap.Keys == overrides.Keys
    requires v.name in overrides ==> ValueOf(overrideVolumesMap[v.name]) == overrides[v.name]
    modifies v.emptyDir, v.secret, v.configMap
    ensures merged == Stem(v, overrideVolumesMap)
    ensures ValueOf(v) == LeftBehind(old(ValueOf(v)), overrides)
  {
    hide MergeVolume, SecretValue, ConfigMapValue;
    merged := v;
    if v.name in overrideVolumesMap {
      merged := OverlayVolume(v, overrideVolumesMap[v.name]);
    }
  }

  /** The same, with what it does to any other volumes. */
  method OverlaySpread(v: Volume, overrideVolumesMap: map<string, Volume>, ghost overrides: map<string, VolumeValue>,
                       ghost all: seq<Volume>)
    returns (merged: Volume)
    requires overrideVolumesMap.Keys == overrides.Keys
    requires v.name in overrides ==> ValueOf(overrideVolumesMap[v.name]) == overrides[v.name]
    modifies v.emptyDir, v.secret, v.configMap
    ensures merged == Stem(v, overrideVolumesMap)
    ensures ValueOf(v) == LeftBehind(old(ValueOf(v)), overrides)
    ensures forall k | 0 <= k < |all| :: ValueOf(all[k]) == Spread(all[k], old(ValueOf(all[k])), v, ValueOf(v))
  {
    hide SecretValue, ConfigMapValue, LeftBehind, Stem;
    merged := OverlayIfNamed(v, overrideVolumesMap, overrides);
  }

  /** One turn seen from both lists: it is written through every pointer to what it writes. */
  method OverlayNext(ds: seq<Volume>, os: seq<Volume>, i: nat, overrideVolumesMap: map<string, Volume>)
    returns (merged: Volume)
    requires i < |ds| && overrideVolumesMap == IndexBy(os, VolumeName)
    modifies ds[i].emptyDir, ds[i].secret, ds[i].configMap
    ensures merged == Stem(ds[i], overrideVolumesMap)
    ensures Values(ds + os) == Turn(ds, os, old(Values(ds + os)), i)
  {
    hide ValueOf, LeftBehind, IndexBy, Current, Stem, Spread, Values;
    ghost var all, vals := ds + os, Values(ds + os);
    assert all[i] == ds[i];
    CurrentOverride(ds, os, ds[i].name);
    merged := OverlaySpread(ds[i], overrideVolumesMap, Current(ds, vals), all);
    assert forall k | 0 <= k < |all| :: vals[k] == old(ValueOf(all[k]));
    TurnMade(ds, os, vals, i);
  }

  lemma TurnMade(ds: seq<Volume>, os: seq<Volume>, vals: seq<VolumeValue>, i: nat)
    requires i < |ds| && |vals| == |ds| + |os|
    requires ValueOf(ds[i]) == Written(ds, vals, i)
    requires forall k | 0 <= k < |vals| :: ValueOf((ds + os)[k]) == Spread((ds + os)[k], vals[k], ds[i], ValueOf(ds[i]))
    ensures Values(ds + os) == Turn(ds, os, vals, i)
  {
    hide ValueOf, Written, Spread;
  }

  lemma CurrentOverride(ds: seq<Volume>, os: seq<Volume>, name: string)
    ensures var V, O := Current(ds, Values(ds + os)), IndexBy(os, VolumeName);
      V.Keys == O.Keys && (name in V ==> ValueOf(O[name]) == V[name])
  {
    hide ValueOf;
    ValuesConcat(ds, os);
    assert Values(ds + os)[|ds|..] == Values(os);
    IndexValues(os);
  }

  /** The first loop: every default volume, with its override merged in where there is one. */
  method OverlayDefaults(defaultVolumes: seq<Volume>, overrideVolumes: seq<Volume>) returns (merged: seq<Volume>)
    modifies AllSources(defaultVolumes)
    ensures merged == Stems(defaultVolumes, IndexBy(overrideVolumes, VolumeName))
    ensures Values(defaultVolumes + overrideVolumes)
         == After(defaultVolumes, overrideVolumes, old(Values(defaultVolumes + overrideVolumes)), |defaultVolumes|)
  {
    hide Values, IndexBy, ValueOf, Turn, Stem;
    ghost var all := defaultVolumes + overrideVolumes;
    ghost var vals := Values(all);
    var overrideVolumesMap := IndexBy(overrideVolumes, VolumeName);
    merged := [];
    for i := 0 to |defaultVolumes|
      invariant |merged| == i && forall j | 0 <= j < i :: merged[j] == Stem(defaultVolumes[j], overrideVolumesMap)
      invariant Values(all) == After(defaultVolumes, overrideVolumes, vals, i)
    {
      var mergedVolume := OverlayNext(defaultVolumes, overrideVolumes, i, overrideVolumesMap);
      merged := merged + [mergedVolume];
    }
  }

  /** The merged volumes as pointers: where each default's leads, then the new overrides, sorted by name. */
  function MergedPointers(ds: seq<Volume>, os: seq<Volume>): seq<Volume> {
    SliceStable(Stems(ds, IndexBy(os, VolumeName)) + NewOnes(os, VolumeName, IndexBy(ds, VolumeName).Keys), VolumeName)
  }

  /**
    Lays the override volumes over the default ones, for any sharing. Which pointers come out, and what every object
    holds afterwards, is told by `MergedPointers` and `After`. Where sharing leaves the overrides in use alone, the
    result is the merge of the values before the call exactly when the sharers agree.
   */
  method Volumes(defaultVolumes: seq<Volume>, overrideVolumes: seq<Volume>) returns (merged: seq<Volume>)
    modifies AllSources(defaultVolumes)
    ensures merged == MergedPointers(defaultVolumes, overrideVolumes)
    ensures Values(defaultVolumes + overrideVolumes)
         == After(defaultVolumes, overrideVolumes, old(Values(defaultVolumes + overrideVolumes)), |defaultVolumes|)
    ensures OverridesStill(defaultVolumes, overrideVolumes) ==>
      (SharersAgree(defaultVolumes, overrideVolumes, old(Values(defaultVolumes + overrideVolumes))) <==>
       Values(merged) == MergeVolumes(old(Values(defaultVolumes)), old(Values(overrideVolumes))))
    ensures SafelyShared(defaultVolumes, overrideVolumes) ==>
      && Values(merged) == MergeVolumes(old(Values(defaultVolumes)), old(Values(overrideVolumes)))
      && Values(overrideVolumes) == old(Values(overrideVolumes))
      && (forall i | 0 <= i < |defaultVolumes| ::
            ValueOf(defaultVolumes[i])
              == LeftBehind(old(ValueOf(defaultVolumes[i])), old(IndexBy(Values(overrideVolumes), ValueName))))
    ensures SafelyShared(defaultVolumes, overrideVolumes) && NewNamesOnce(defaultVolumes, overrideVolumes) ==>
      SafelyShared(merged, overrideVolumes)
    ensures AllSources(merged) <= AllSources(defaultVolumes) + AllSources(overrideVolumes)
  {
    hide *;
    ghost var all := defaultVolumes + overrideVolumes;
    ghost var vals := Values(all);
    HeapFits(all);
    ValuesConcat(defaultVolumes, overrideVolumes);
    Halves(defaultVolumes, overrideVolumes, vals);
    var defaultVolumesMap := IndexBy(defaultVolumes, VolumeName);
    merged := OverlayDefaults(defaultVolumes, overrideVolumes);
    ghost var first := merged;
    NewOnesNone(overrideVolumes, defaultVolumesMap.Keys);
    for i := 0 to |overrideVolumes|
      invariant Values(all) == After(defaultVolumes, overrideVolumes, vals, |defaultVolumes|)
      invariant merged == first + NewOnes(overrideVolumes[..i], VolumeName, defaultVolumesMap.Keys)
    {
      NewOnesNext(overrideVolumes, i, defaultVolumesMap.Keys);
      if overrideVolumes[i].name !in defaultVolumesMap {
        merged := merged + [overrideVolumes[i]];
      }
    }
    assert overrideVolumes[..|overrideVolumes|] == overrideVolumes;
    merged := SliceStable(merged, VolumeName);
    PointersTold(defaultVolumes, overrideVolumes, first, merged);
    Consequences(defaultVolumes, overrideVolumes, vals);
    if SafelyShared(defaultVolumes, overrideVolumes) && NewNamesOnce(defaultVolumes, overrideVolumes) {
      SafeAfterMerge(defaultVolumes, overrideVolumes);
    }
    SourcesKept(defaultVolumes, overrideVolumes);
  }

  lemma PointersTold(ds: seq<Volume>, os: seq<Volume>, first: seq<Volume>, merged: seq<Volume>)
    requires first == Stems(ds, IndexBy(os, VolumeName))
    requires merged == SliceStable(first + NewOnes(os, VolumeName, IndexBy(ds, VolumeName).Keys), VolumeName)
    ensures merged == MergedPointers(ds, os)
  {
  }

  /** The values of both lists, taken apart. */
  lemma Halves(ds: seq<Volume>, os: seq<Volume>, vals: seq<VolumeValue>)
    requires vals == Values(ds) + Values(os)
    ensures |vals| == |ds| + |os| && vals[..|ds|] == Values(ds) && vals[|ds|..] == Values(os)
    ensures Current(ds, vals) == IndexBy(Values(os), ValueName)
    ensures forall i | 0 <= i < |ds| :: vals[i] == ValueOf(ds[i])
  {
  }

  lemma NewOnesNone(os: seq<Volume>, known: set<string>)
    ensures NewOnes(os[..0], VolumeName, known) == []
  {
  }

  lemma NewOnesNext(os: seq<Volume>, i: nat, known: set<string>)
    requires i < |os|
    ensures NewOnes(os[..i + 1], VolumeName, known)
         == NewOnes(os[..i], VolumeName, known) + if os[i].name in known then [] else [os[i]]
  {
    assert os[..i + 1][..i] == os[..i];
  }

  lemma StemShows(ds: seq<Volume>, os: seq<Volume>, i: nat)
    requires i < |ds|
    ensures ValueOf(Stem(ds[i], IndexBy(os, VolumeName))) == Shown(ds, os, Values(ds + os), i)
  {
    hide SecretValue, ConfigMapValue, IndexBy, Current;
    CurrentOverride(ds, os, ds[i].name);
    assert (ds + os)[i] == ds[i];
  }

  /** What the merged pointers show is what `ListShown` tells of the values behind both lists. */
  lemma PointersShow(ds: seq<Volume>, os: seq<Volume>)
    ensures Values(MergedPointers(ds, os)) == ListShown(ds, os, Values(ds + os))
  {
    hide ValueOf, Stem, Shown, NewOnes, SliceStable, IndexBy;
    var O, known := IndexBy(os, VolumeName), IndexBy(ds, VolumeName).Keys;
    var first, news := Stems(ds, O), NewOnes(os, VolumeName, known);
    forall i | 0 <= i < |ds| ensures Values(first)[i] == AllShown(ds, os, Values(ds + os))[i] {
      StemShows(ds, os, i);
    }
    assert Values(first) == AllShown(ds, os, Values(ds + os));
    ValuesConcat(ds, os);
    assert Values(ds + os)[|ds|..] == Values(os);
    NewOnesValues(os, known);
    ValuesConcat(first, news);
    SortValues(first + news);
  }

  /** What follows for the values now from what they were, once every turn has been made. */
  lemma Consequences(ds: seq<Volume>, os: seq<Volume>, vals: seq<VolumeValue>)
    requires |vals| == |ds| + |os| && Fits(ds + os, vals) && AllItemsWellKeyed(vals)
    requires Values(ds + os) == After(ds, os, vals, |ds|)
    ensures OverridesStill(ds, os) ==>
      (Values(MergedPointers(ds, os)) == MergeVolumes(vals[..|ds|], vals[|ds|..]) <==> SharersAgree(ds, os, vals))
    ensures SafelyShared(ds, os) ==>
      && Values(MergedPointers(ds, os)) == MergeVolumes(vals[..|ds|], vals[|ds|..])
      && Values(os) == vals[|ds|..]
      && forall i | 0 <= i < |ds| :: ValueOf(ds[i]) == LeftBehind(vals[i], Current(ds, vals))
  {
    hide Fits, AllItemsWellKeyed, After, OverridesStill, SharersAgree, SafelyShared, MergeVolumes, ListShown,
        MergedPointers;
    hide ValueOf, LeftBehind, Current;
    PointersShow(ds, os);
    if SafelyShared(ds, os) {
      SafeAgrees(ds, os, vals);
      SafeValues(ds, os, vals);
    }
    if OverridesStill(ds, os) {
      ListInPlaceIff(ds, os, vals);
    }
  }

  lemma SafeValues(ds: seq<Volume>, os: seq<Volume>, vals: seq<VolumeValue>)
    requires |vals| == |ds| + |os| && Fits(ds + os, vals) && AllItemsWellKeyed(vals) && SafelyShared(ds, os)
    requires Values(ds + os) == After(ds, os, vals, |ds|)
    ensures Values(os) == vals[|ds|..]
    ensures forall i | 0 <= i < |ds| :: ValueOf(ds[i]) == LeftBehind(vals[i], Current(ds, vals))
  {
    hide Fits, AllItemsWellKeyed, After, SafelyShared, ValueOf, LeftBehind, Current;
    ValuesConcat(ds, os);
    forall j | 0 <= j < |os| ensures Values(os)[j] == vals[|ds| + j] {
      SafeOverrideStill(ds, os, vals, j);
      assert Values(os)[j] == Values(ds + os)[|ds| + j];
    }
    forall i | 0 <= i < |ds| ensures ValueOf(ds[i]) == LeftBehind(vals[i], Current(ds, vals)) {
      SafeDefaultLeft(ds, os, vals, i);
      assert Values(ds + os)[i] == ValueOf((ds + os)[i]);
    }
  }

  // ---------------------------------------------------------------- merging the result again

  /** No name that is new to the defaults comes twice among the overrides. */
  ghost predicate NewNamesOnce(ds: seq<Volume>, os: seq<Volume>) {
    forall i, j | 0 <= i < |os| && 0 <= j < |os| && i != j && os[i].name !in IndexBy(ds, VolumeName) ::
        os[i].name != os[j].name
  }

  lemma {:induction false} NewOnesFrom(os: seq<Volume>, known: set<string>)
    ensures forall x | x in NewOnes(os, VolumeName, known) :: x in os && x.name !in known
  {
    if os != [] {
      NewOnesFrom(os[..|os| - 1], known);
    }
  }

  lemma NewOnesOwn(ds: seq<Volume>, os: seq<Volume>, x: Volume)
    requires NewNamesOnce(ds, os) && x in NewOnes(os, VolumeName, IndexBy(ds, VolumeName).Keys)
    ensures MergesWithItself(x, IndexBy(os, VolumeName))
  {
    NewOnesFrom(os, IndexBy(ds, VolumeName).Keys);
    IndexSound(os, VolumeName);
    var i :| 0 <= i < |os| && os[i] == x;
    assert VolumeName(x) in IndexBy(os, VolumeName);
    var last := IndexBy(os, VolumeName)[x.name];
    assert VolumeName(last) == x.name;
    var j :| 0 <= j < |os| && os[j] == last;
  }

  /** Merged defaults followed by new overrides share objects safely. */
  lemma SafeUnsorted(ds: seq<Volume>, os: seq<Volume>, first: seq<Volume>, news: seq<Volume>)
    requires SafelyShared(ds, os) && |first| == |ds|
    requires forall i | 0 <= i < |first| :: first[i] == Stem(ds[i], IndexBy(os, VolumeName))
    requires forall x | x in news :: x in os && MergesWithItself(x, IndexBy(os, VolumeName))
    ensures SafelyShared(first + news, os)
  {
    hide IndexBy;
    IndexSound(os, VolumeName);
    var O, all := IndexBy(os, VolumeName), first + news;
    forall i | 0 <= i < |all| ensures MergesWithItself(all[i], O) || Alone(all, os, i) {
      if i >= |first| {
        assert all[i] in news;
      } else if !MergesWithItself(all[i], O) {
        assert SamePointers(first[i], ds[i]) && Alone(ds, os, i);
        forall j | 0 <= j < |all| && j != i ensures Apart(all[i], all[j]) {
          if j >= |first| {
            assert all[j] in news;
          } else {
            assert Apart(ds[i], ds[j]);
          }
        }
      }
    }
  }

  lemma OthersAsMultiset<T>(s: seq<T>, i: nat)
    requires i < |s|
    ensures multiset(s[..i] + s[i + 1..]) == multiset(s) - multiset{s[i]}
  {
    assert s == s[..i] + [s[i]] + s[i + 1..];
  }

  lemma AnotherLike<T>(s: seq<T>, r: seq<T>, i: nat, k: nat, j: nat) returns (l: nat)
    requires multiset(s) == multiset(r) && i < |r| && k < |s| && s[k] == r[i] && j < |r| && j != i
    ensures l < |s| && l != k && s[l] == r[j]
  {
    OthersAsMultiset(s, k);
    OthersAsMultiset(r, i);
    var t, u := r[..i] + r[i + 1..], s[..k] + s[k + 1..];
    assert r[j] == t[if j < i then j else j - 1];
    assert r[j] in multiset(t) && r[j] in multiset(u);
    var m :| 0 <= m < |u| && u[m] == r[j];
    l := if m < k then m else m + 1;
  }

  lemma SafePermuted(vs: seq<Volume>, r: seq<Volume>, os: seq<Volume>)
    requires SafelyShared(vs, os) && multiset(vs) == multiset(r)
    ensures SafelyShared(r, os)
  {
    hide IndexBy, Apart;
    var O := IndexBy(os, VolumeName);
    forall i | 0 <= i < |r| ensures MergesWithItself(r[i], O) || Alone(r, os, i) {
      assert r[i] in multiset(vs);
      var k :| 0 <= k < |vs| && vs[k] == r[i];
      if !MergesWithItself(r[i], O) {
        assert Alone(vs, os, k);
        forall j | 0 <= j < |r| && j != i ensures Apart(r[i], r[j]) {
          var l := AnotherLike(vs, r, i, k, j);
        }
      }
    }
  }

  lemma SafeAfterMerge(ds: seq<Volume>, os: seq<Volume>)
    requires SafelyShared(ds, os) && NewNamesOnce(ds, os)
    ensures SafelyShared(MergedPointers(ds, os), os)
  {
    hide SafelyShared, NewNamesOnce, Stem, IndexBy, NewOnes, MergesWithItself, SliceStable;
    var first, news := Stems(ds, IndexBy(os, VolumeName)), NewOnes(os, VolumeName, IndexBy(ds, VolumeName).Keys);
    NewOnesFrom(os, IndexBy(ds, VolumeName).Keys);
    forall x | x in news ensures x in os && MergesWithItself(x, IndexBy(os, VolumeName)) {
      NewOnesOwn(ds, os, x);
    }
    SafeUnsorted(ds, os, first, news);
    SliceStableSorts(first + news, VolumeName);
    SafePermuted(first + news, SliceStable(first + news, VolumeName), os);
  }

  /** The merge allocates no source: every pointer of the result was in one of the lists. */
  lemma SourcesKept(ds: seq<Volume>, os: seq<Volume>)
    ensures AllSources(MergedPointers(ds, os)) <= AllSources(ds) + AllSources(os)
  {
    hide AllSources, NewOnes, SliceStable;
    var first := Stems(ds, IndexBy(os, VolumeName));
    var all := first + NewOnes(os, VolumeName, IndexBy(ds, VolumeName).Keys);
    var r := SliceStable(all, VolumeName);
    NewOnesFrom(os, IndexBy(ds, VolumeName).Keys);
    IndexSound(os, VolumeName);
    SliceStableSorts(all, VolumeName);
    forall v | v in r ensures exists w :: w in ds + os && SamePointers(v, w) {
      assert v in multiset(all) && v in all;
      if v in first {
        var i :| 0 <= i < |first| && first[i] == v;
        var w := if Keeps(ds[i], IndexBy(os, VolumeName)) then ds[i] else IndexBy(os, VolumeName)[ds[i].name];
        assert w in ds + os && SamePointers(v, w);
      } else {
        assert v in ds + os && SamePointers(v, v);
      }
    }
    SourcesWithin(r, ds, os);
  }

  lemma SourcesWithin(r: seq<Volume>, ds: seq<Volume>, os: seq<Volume>)
    requires forall v | v in r :: exists w :: w in ds + os && SamePointers(v, w)
    ensures AllSources(r) <= AllSources(ds) + AllSources(os)
  {
  }

  /** New names that come once among the pointers come once among the values. */
  lemma OnceAgree(ds: seq<Volume>, os: seq<Volume>)
    requires NewNamesOnce(ds, os)
    ensures NewOverridesAgree(Values(ds), Values(os))
  {
    hide Says, MergeVolume, ValueOf, Values;
    IndexValues(ds);
    ValuesWellKeyed(os);
    var vs := Values(os);
    var O := IndexBy(vs, ValueName);
    IndexSound(vs, ValueName);
    forall i | 0 <= i < |vs| && vs[i].name !in IndexBy(Values(ds), ValueName)
      ensures vs[i].name in O && Says(vs[i], O[vs[i].name])
    {
      assert ValueName(vs[i]) in O && ValueName(O[vs[i].name]) == vs[i].name && O[vs[i].name] in vs;
      var j :| 0 <= j < |vs| && vs[j] == O[vs[i].name];
      assert vs[i].name == os[i].name && vs[j].name == os[j].name by { NameOf(os[i]); NameOf(os[j]); }
      MergedOntoItself(vs[i]);
      SaysIff(vs[i], vs[i]);
    }
  }

  lemma NameOf(v: Volume)
    ensures ValueOf(v).name == v.name
  {
  }

  /**
    The law on the heap: merged a second time, through pointers now shared with the override, volumes whose new
    names come once are what they were after the first merge, and the override is what it was before both.
   */
  method VolumesTwice(defaultVolumes: seq<Volume>, overrideVolumes: seq<Volume>)
    returns (once: seq<Volume>, twice: seq<Volume>)
    requires SafelyShared(defaultVolumes, overrideVolumes) && NewNamesOnce(defaultVolumes, overrideVolumes)
    modifies AllSources(defaultVolumes), AllSources(overrideVolumes)
    ensures Values(twice) == MergeVolumes(old(Values(defaultVolumes)), old(Values(overrideVolumes)))
    ensures Values(overrideVolumes) == old(Values(overrideVolumes))
  {
    hide *;
    OnceAgree(defaultVolumes, overrideVolumes);
    ValuesWellKeyed(defaultVolumes);
    ValuesWellKeyed(overrideVolumes);
    VolumesReapplyIff(Values(defaultVolumes), Values(overrideVolumes));
    once := Volumes(defaultVolumes, overrideVolumes);
    twice := Volumes(once, overrideVolumes);
  }

  // ---------------------------------------------------------------- inputs for which sharing shows

  function EmptyDir(name: string, source: EmptyDirSource): Volume { Volume(name, source, null, null, None) }

  /** What one emptyDir source becomes under another, field by field. */
  ghost function OneOver(d: EmptyDirSource, o: EmptyDirSource): EmptyDirValue
    reads d, o
  {
    EmptyDirValue(OrString(d.medium, o.medium), OrSome(d.sizeLimit, o.sizeLimit))
  }

  /** Two defaults on one source, only the first overridden: they agree exactly when the override says nothing new. */
  lemma OneOverriddenIff(shared: EmptyDirSource, x: EmptyDirSource, a: string, b: string)
    requires shared != x && a != b
    ensures var ds, os := [EmptyDir(a, shared), EmptyDir(b, shared)], [EmptyDir(a, x)];
      && OverridesStill(ds, os)
      && (SharersAgree(ds, os, Values(ds + os))
          <==> OneOver(shared, x) == EmptyDirValue(shared.medium, shared.sizeLimit))
  {
    var ds, os := [EmptyDir(a, shared), EmptyDir(b, shared)], [EmptyDir(a, x)];
    assert os[..0] == [];
    assert IndexBy(os, VolumeName) == map[a := os[0]];
    var vs := [ValueOf(os[0])];
    assert Values(ds + os)[|ds|..] == vs;
    assert vs[..0] == [];
    assert IndexBy(vs, ValueName) == map[a := vs[0]];
    assert Current(ds, Values(ds + os)) == map[a := vs[0]];
    PairAgrees(ds, os, ValueOf(ds[0]).(emptyDir := Some(OneOver(shared, x))), ValueOf(ds[1]));
  }

  /** Both overridden: they agree exactly when the two merges do. */
  lemma BothOverriddenIff(shared: EmptyDirSource, x: EmptyDirSource, y: EmptyDirSource, a: string, b: string)
    requires shared != x && shared != y && a != b
    ensures var ds, os := [EmptyDir(a, shared), EmptyDir(b, shared)], [EmptyDir(a, x), EmptyDir(b, y)];
      && OverridesStill(ds, os)
      && (SharersAgree(ds, os, Values(ds + os)) <==> OneOver(shared, x) == OneOver(shared, y))
  {
    var ds, os := [EmptyDir(a, shared), EmptyDir(b, shared)], [EmptyDir(a, x), EmptyDir(b, y)];
    assert os[..1] == [os[0]] && os[..1][..0] == [];
    assert IndexBy(os[..1], VolumeName) == map[a := os[0]];
    assert IndexBy(os, VolumeName) == map[a := os[0], b := os[1]];
    var vs := [ValueOf(os[0]), ValueOf(os[1])];
    assert Values(ds + os)[|ds|..] == vs;
    assert vs[..1] == [vs[0]] && vs[..1][..0] == [];
    assert IndexBy(vs[..1], ValueName) == map[a := vs[0]];
    assert Current(ds, Values(ds + os)) == map[a := vs[0], b := vs[1]];
    PairAgrees(ds, os, ValueOf(ds[0]).(emptyDir := Some(OneOver(shared, x))),
               ValueOf(ds[1]).(emptyDir := Some(OneOver(shared, y))));
  }

  /** Two defaults with an emptyDir source only. */
  lemma PairAgrees(ds: seq<Volume>, os: seq<Volume>, first: VolumeValue, second: VolumeValue)
    requires |ds| == 2 && SameObject(ds[0], ds[1], EmptyDirKind)
    requires ds[0].secret == ds[1].secret == null && ds[0].configMap == ds[1].configMap == null
    requires Keeps(ds[0], IndexBy(os, VolumeName)) && Keeps(ds[1], IndexBy(os, VolumeName))
    requires var V := Current(ds, Values(ds + os));
      Overlaid(ValueOf(ds[0]), V) == first && Overlaid(ValueOf(ds[1]), V) == second
    ensures SharersAgree(ds, os, Values(ds + os)) <==> first.emptyDir == second.emptyDir
  {
    hide Overlaid, Current, IndexBy, Keeps, ValueOf;
    var vals := Values(ds + os);
    assert vals[0] == ValueOf((ds + os)[0]) && vals[1] == ValueOf((ds + os)[1]);
    assert (ds + os)[0] == ds[0] && (ds + os)[1] == ds[1];
    if SharersAgree(ds, os, vals) {
      assert Part(first, EmptyDirKind) == Part(second, EmptyDirKind);
    }
  }

  /** Two turns on one source: both volumes end with the second override, and the first is not its own merge. */
  method SharedDefaultsShow(shared: EmptyDirSource, x: EmptyDirSource, y: EmptyDirSource) returns (a: Volume, b: Volume)
    requires shared != x && shared != y && x.medium != "" && y.medium != "" && x.medium != y.medium
    modifies shared
    ensures a.emptyDir == b.emptyDir == shared && shared.medium == old(y.medium)
    ensures ValueOf(a) != MergeVolume(old(ValueOf(EmptyDir("a", shared))), old(ValueOf(EmptyDir("a", x))))
  {
    a := OverlayVolume(EmptyDir("a", shared), EmptyDir("a", x));
    b := OverlayVolume(EmptyDir("b", shared), EmptyDir("b", y));
  }

  /** Why an override in use may not be shared either: it is written through a default of another name. */
  method OverrideSharedShows(shared: EmptyDirSource, x: EmptyDirSource) returns (a: Volume)
    requires shared != x && x.medium != "" && x.medium != shared.medium
    modifies shared
    ensures ValueOf(EmptyDir("b", shared)) != old(ValueOf(EmptyDir("b", shared)))
  {
    a := OverlayVolume(EmptyDir("a", shared), EmptyDir("a", x));
  }
}
