/** What the merge of volumes promises, told on values. */
module VolumeLaws {
  import opened Text
  import opened Sorting
  import opened KeyedMerge
  import opened PodModel
  import opened VolumeMerge

  /** Nothing is dropped: one volume per default, and one per override that no default is named like. */
  lemma MergedLength(ds: seq<VolumeValue>, os: seq<VolumeValue>)
    ensures |MergeVolumes(ds, os)| == |ds| + |NewOnes(os, ValueName, IndexBy(ds, ValueName).Keys)|
    ensures SortedBy(MergeVolumes(ds, os), ValueName)
  {
    var all := OverlaidAll(ds, IndexBy(os, ValueName)) + NewOnes(os, ValueName, IndexBy(ds, ValueName).Keys);
    SliceStableSorts(all, ValueName);
    assert |multiset(SliceStable(all, ValueName))| == |multiset(all)|;
  }

  /** Items of a source: merging the same ones in again changes nothing. */
  lemma ItemsReapply(x: map<string, KeyToPath>, y: map<string, KeyToPath>)
    requires WellKeyed(x, ItemKey) && WellKeyed(y, ItemKey)
    ensures WellKeyed(MergeMaps(x, y, MergeKeyToPath), ItemKey)
    ensures MergeMaps(MergeMaps(x, y, MergeKeyToPath), y, MergeKeyToPath) == MergeMaps(x, y, MergeKeyToPath)
  {
    forall k | k in x && k in y ensures MergeKeyToPath(MergeKeyToPath(x[k], y[k]), y[k]) == MergeKeyToPath(x[k], y[k]) {
      assert ItemKey(x[k]) == k == ItemKey(y[k]);
    }
    forall k | k in y && k !in x ensures MergeKeyToPath(y[k], y[k]) == y[k] { }
  }

  ghost predicate ItemsWellKeyed(v: VolumeValue) {
    && (v.secret.Some? ==> WellKeyed(v.secret.value.items, ItemKey))
    && (v.configMap.Some? ==> WellKeyed(v.configMap.value.items, ItemKey))
  }

  lemma FilesReapply(d: FilesValue, o: FilesValue)
    requires WellKeyed(d.items, ItemKey) && WellKeyed(o.items, ItemKey)
    ensures MergeFiles(MergeFiles(d, o), o) == MergeFiles(d, o)
    ensures MergeFiles(MergeFiles(d, o).(optional := d.optional), o).(optional := d.optional)
         == MergeFiles(d, o).(optional := d.optional)
  {
    ItemsReapply(d.items, o.items);
  }

  /** One volume laid over another twice is as good as once. */
  lemma VolumeReapply(d: VolumeValue, o: VolumeValue)
    requires ItemsWellKeyed(d) && ItemsWellKeyed(o)
    ensures MergeVolume(MergeVolume(d, o), o) == MergeVolume(d, o)
    ensures MergeVolume(d, o).name == d.name
  {
    hide MergeFiles;
    if o.secret.Some? {
      FilesSelf(o.secret.value);
      if d.secret.Some? { FilesReapply(d.secret.value, o.secret.value); }
    }
    if o.configMap.Some? {
      FilesSelf(o.configMap.value);
      if d.configMap.Some? { FilesReapply(d.configMap.value, o.configMap.value); }
    }
  }

  /** Every volume, laid under its override once more, stays as it is. */
  ghost predicate Stays(vs: seq<VolumeValue>, overrides: map<string, VolumeValue>) {
    forall i | 0 <= i < |vs| :: Overlaid(vs[i], overrides) == vs[i]
  }

  lemma {:induction false} NewOnesNone(os: seq<VolumeValue>, known: set<string>)
    requires forall i | 0 <= i < |os| :: os[i].name in known
    ensures NewOnes(os, ValueName, known) == []
  {
    if os != [] {
      NewOnesNone(os[..|os| - 1], known);
    }
  }

  lemma {:induction false} NewOnesMembers(os: seq<VolumeValue>, known: set<string>)
    ensures forall i | 0 <= i < |os| && os[i].name !in known :: os[i] in NewOnes(os, ValueName, known)
    ensures forall x | x in NewOnes(os, ValueName, known) :: x in os && x.name !in known
  {
    if os != [] {
      NewOnesMembers(os[..|os| - 1], known);
      assert os == os[..|os| - 1] + [os[|os| - 1]];
    }
  }

  /** The volumes of a merge: overlaid defaults and new overrides, nothing else. */
  lemma MergedMembers(ds: seq<VolumeValue>, os: seq<VolumeValue>)
    ensures forall x :: x in MergeVolumes(ds, os) <==>
      x in OverlaidAll(ds, IndexBy(os, ValueName)) || x in NewOnes(os, ValueName, IndexBy(ds, ValueName).Keys)
  {
    var all := OverlaidAll(ds, IndexBy(os, ValueName)) + NewOnes(os, ValueName, IndexBy(ds, ValueName).Keys);
    SliceStableSorts(all, ValueName);
    SameMembers(SliceStable(all, ValueName), all);
  }

  /** Every override name stands in the merge. */
  lemma OverridesNamed(ds: seq<VolumeValue>, os: seq<VolumeValue>, i: nat)
    requires i < |os| && AllItemsWellKeyed(ds) && AllItemsWellKeyed(os)
    ensures os[i].name in IndexBy(MergeVolumes(ds, os), ValueName)
  {
    MergedMembers(ds, os);
    IndexSound(MergeVolumes(ds, os), ValueName);
    IndexSound(ds, ValueName);
    IndexSound(os, ValueName);
    var D := IndexBy(ds, ValueName);
    var name := os[i].name;
    if name in D {
      var j :| 0 <= j < |ds| && ds[j] == D[name];
      assert ValueName(ds[j]) == name;
      var x := OverlaidAll(ds, IndexBy(os, ValueName))[j];
      OverlaidKeepsName(ds[j], os);
      assert x in MergeVolumes(ds, os) && ValueName(x) == name;
    } else {
      NewOnesMembers(os, D.Keys);
      assert ValueName(os[i]) == name;
    }
  }

  ghost predicate AllItemsWellKeyed(vs: seq<VolumeValue>) {
    forall i | 0 <= i < |vs| :: ItemsWellKeyed(vs[i])
  }

  lemma OverlaidKeepsName(d: VolumeValue, os: seq<VolumeValue>)
    requires ItemsWellKeyed(d) && AllItemsWellKeyed(os)
    ensures Overlaid(d, IndexBy(os, ValueName)).name == d.name
    ensures Overlaid(Overlaid(d, IndexBy(os, ValueName)), IndexBy(os, ValueName)) == Overlaid(d, IndexBy(os, ValueName))
  {
    hide MergeVolume;
    var O := IndexBy(os, ValueName);
    IndexSound(os, ValueName);
    if d.name in O {
      var i :| 0 <= i < |os| && os[i] == O[d.name];
      VolumeReapply(d, O[d.name]);
    }
  }

  /** Laid over a sorted list that already has every name, the overrides only act in place. */
  lemma MergeInPlace(vs: seq<VolumeValue>, os: seq<VolumeValue>)
    requires SortedBy(vs, ValueName) && AllItemsWellKeyed(vs) && AllItemsWellKeyed(os)
    requires forall i | 0 <= i < |os| :: os[i].name in IndexBy(vs, ValueName)
    ensures MergeVolumes(vs, os) == OverlaidAll(vs, IndexBy(os, ValueName))
  {
    var r := OverlaidAll(vs, IndexBy(os, ValueName));
    NewOnesNone(os, IndexBy(vs, ValueName).Keys);
    assert r + [] == r;
    forall i | 0 <= i < |vs| ensures ValueName(r[i]) == ValueName(vs[i]) {
      OverlaidKeepsName(vs[i], os);
    }
    SortedStays(r, ValueName);
  }

  /** The field of `o` is empty, or `x` has the same. */
  predicate SaysString(x: string, o: string) { o == "" || o == x }

  predicate SaysSome<T(==)>(x: Option<T>, o: Option<T>) { o.None? || o == x }

  /** Every item of `o` is in `x`, with the path and the mode it asks for. */
  predicate SaysItems(x: map<string, KeyToPath>, o: map<string, KeyToPath>) {
    forall k | k in o :: k in x && SaysString(x[k].path, o[k].path) && SaysSome(x[k].mode, o[k].mode)
  }

  predicate SaysFiles(x: FilesValue, o: FilesValue) {
    SaysString(x.name, o.name) && SaysItems(x.items, o.items) && SaysSome(x.defaultMode, o.defaultMode)
  }

  /** Field by field: `x` already says all that `o` says of their common kind of source, or the two are equal. */
  predicate Says(x: VolumeValue, o: VolumeValue) {
    if x.emptyDir.Some? && o.emptyDir.Some? then
      && SaysString(x.emptyDir.value.medium, o.emptyDir.value.medium)
      && SaysSome(x.emptyDir.value.sizeLimit, o.emptyDir.value.sizeLimit)
    else if x.secret.Some? && o.secret.Some? then SaysFiles(x.secret.value, o.secret.value)
    else if x.configMap.Some? && o.configMap.Some? then
      SaysFiles(x.configMap.value, o.configMap.value)
          && SaysSome(x.configMap.value.optional, o.configMap.value.optional)
    else x == o
  }

  lemma SaysItemsIff(x: map<string, KeyToPath>, o: map<string, KeyToPath>)
    requires WellKeyed(x, ItemKey) && WellKeyed(o, ItemKey)
    ensures MergeMaps(x, o, MergeKeyToPath) == x <==> SaysItems(x, o)
  {
    var m := MergeMaps(x, o, MergeKeyToPath);
    forall k | k in x && k in o
      ensures m[k] == x[k] <==> SaysString(x[k].path, o[k].path) && SaysSome(x[k].mode, o[k].mode)
    {
      assert ItemKey(x[k]) == k == ItemKey(o[k]);
    }
    if SaysItems(x, o) {
      assert m.Keys == x.Keys;
      forall k | k in x ensures m[k] == x[k] { }
    } else {
      var k :| k in o && !(k in x && SaysString(x[k].path, o[k].path) && SaysSome(x[k].mode, o[k].mode));
      assert k in m;
      assert k !in x || m[k] != x[k];
    }
  }

  /** Laying `o` over `x` changes nothing exactly when `x` already says it. */
  lemma SaysIff(x: VolumeValue, o: VolumeValue)
    requires ItemsWellKeyed(x) && ItemsWellKeyed(o) && x.name == o.name
    ensures MergeVolume(x, o) == x <==> Says(x, o)
  {
    hide SaysItems;
    if x.secret.Some? && o.secret.Some? { SaysItemsIff(x.secret.value.items, o.secret.value.items); }
    if x.configMap.Some? && o.configMap.Some? { SaysItemsIff(x.configMap.value.items, o.configMap.value.items); }
  }

  /** What a caller can check: a new override already says all that its last namesake says. */
  ghost predicate NewOverridesAgree(ds: seq<VolumeValue>, os: seq<VolumeValue>) {
    forall i | 0 <= i < |os| && os[i].name !in IndexBy(ds, ValueName) ::
      os[i].name in IndexBy(os, ValueName) && Says(os[i], IndexBy(os, ValueName)[os[i].name])
  }

  lemma NewOverridesStayIff(ds: seq<VolumeValue>, os: seq<VolumeValue>)
    requires AllItemsWellKeyed(os)
    ensures Stays(NewOnes(os, ValueName, IndexBy(ds, ValueName).Keys), IndexBy(os, ValueName))
        <==> NewOverridesAgree(ds, os)
  {
    hide IndexBy, MergeVolume, Says, ItemsWellKeyed;
    var O, known := IndexBy(os, ValueName), IndexBy(ds, ValueName).Keys;
    var news := NewOnes(os, ValueName, known);
    NewOnesMembers(os, known);
    IndexSound(os, ValueName);
    forall x | x in os ensures ValueName(x) in O && (Overlaid(x, O) == x <==> Says(x, O[x.name])) {
      assert ValueName(x) in O && ValueName(O[x.name]) == x.name && O[x.name] in os;
      SaysIff(x, O[x.name]);
    }
    if Stays(news, O) {
      forall i | 0 <= i < |os| && os[i].name !in known ensures os[i].name in O && Says(os[i], O[os[i].name]) {
        assert os[i] in news;
      }
    }
  }

  lemma MergedWellKeyed(ds: seq<VolumeValue>, os: seq<VolumeValue>)
    requires AllItemsWellKeyed(ds) && AllItemsWellKeyed(os)
    ensures AllItemsWellKeyed(MergeVolumes(ds, os))
  {
    var O, known := IndexBy(os, ValueName), IndexBy(ds, ValueName).Keys;
    MergedMembers(ds, os);
    NewOnesMembers(os, known);
    IndexSound(os, ValueName);
    forall x | x in MergeVolumes(ds, os) ensures ItemsWellKeyed(x) {
      if x in OverlaidAll(ds, O) {
        var i :| 0 <= i < |ds| && x == Overlaid(ds[i], O);
        if ds[i].name in O { MergedItems(ds[i], O[ds[i].name]); }
      }
    }
  }

  lemma MergedItems(d: VolumeValue, o: VolumeValue)
    requires ItemsWellKeyed(d) && ItemsWellKeyed(o)
    ensures ItemsWellKeyed(MergeVolume(d, o))
  {
    if d.secret.Some? && o.secret.Some? { ItemsReapply(d.secret.value.items, o.secret.value.items); }
    if d.configMap.Some? && o.configMap.Some? { ItemsReapply(d.configMap.value.items, o.configMap.value.items); }
  }

  /**
    Laid over their merge, the overrides leave it as it is exactly when they leave the new ones among them as they
    are.
   */
  lemma StaysIff(ds: seq<VolumeValue>, os: seq<VolumeValue>)
    requires AllItemsWellKeyed(ds) && AllItemsWellKeyed(os)
    ensures var O := IndexBy(os, ValueName);
      Stays(MergeVolumes(ds, os), O) <==> Stays(NewOnes(os, ValueName, IndexBy(ds, ValueName).Keys), O)
  {
    hide IndexBy, Overlaid, MergeVolumes, ItemsWellKeyed;
    var once, O := MergeVolumes(ds, os), IndexBy(os, ValueName);
    var added := NewOnes(os, ValueName, IndexBy(ds, ValueName).Keys);
    MergedMembers(ds, os);
    if Stays(once, O) {
      forall i | 0 <= i < |added| ensures Overlaid(added[i], O) == added[i] {
        assert added[i] in once;
      }
    }
    if Stays(added, O) {
      forall i | 0 <= i < |once| ensures Overlaid(once[i], O) == once[i] {
        assert once[i] in once;
        if once[i] in OverlaidAll(ds, O) {
          var j :| 0 <= j < |ds| && once[i] == Overlaid(ds[j], O);
          OverlaidKeepsName(ds[j], os);
        }
      }
    }
  }

  /** Applying the same volumes again changes nothing exactly when the new overrides agree with their last namesakes. */
  lemma VolumesReapplyIff(ds: seq<VolumeValue>, os: seq<VolumeValue>)
    requires AllItemsWellKeyed(ds) && AllItemsWellKeyed(os)
    ensures MergeVolumes(MergeVolumes(ds, os), os) == MergeVolumes(ds, os) <==> NewOverridesAgree(ds, os)
  {
    hide IndexBy, MergeVolumes, Overlaid, ItemsWellKeyed, NewOverridesAgree, NewOnes;
    var once, O := MergeVolumes(ds, os), IndexBy(os, ValueName);
    MergedLength(ds, os);
    MergedWellKeyed(ds, os);
    forall i | 0 <= i < |os| ensures os[i].name in IndexBy(once, ValueName) { OverridesNamed(ds, os, i); }
    MergeInPlace(once, os);
    StaysIff(ds, os);
    NewOverridesStayIff(ds, os);
    assert OverlaidAll(once, O) == once <==> Stays(once, O) by {
      if OverlaidAll(once, O) == once {
        assert forall i | 0 <= i < |once| :: OverlaidAll(once, O)[i] == Overlaid(once[i], O);
      }
    }
  }

  /** Overrides with one volume per name agree. */
  lemma DistinctNamesAgree(ds: seq<VolumeValue>, os: seq<VolumeValue>)
    requires DistinctKeys(os, ValueName) && AllItemsWellKeyed(os)
    ensures NewOverridesAgree(ds, os)
  {
    hide MergeVolume, Says;
    IndexDistinct(os, ValueName);
    forall i | 0 <= i < |os|
        ensures os[i].name in IndexBy(os, ValueName) && Says(os[i], IndexBy(os, ValueName)[os[i].name]) {
      assert IndexBy(os, ValueName)[ValueName(os[i])] == os[i];
      MergedOntoItself(os[i]);
      SaysIff(os[i], os[i]);
    }
  }

  lemma MergedOntoItself(x: VolumeValue)
    requires ItemsWellKeyed(x)
    ensures MergeVolume(x, x) == x
  {
    hide MergeFiles;
    if x.secret.Some? { FilesSelf(x.secret.value); }
    if x.configMap.Some? { FilesSelf(x.configMap.value); }
  }

  /** The third application equals the second, whatever the volumes. */
  lemma VolumesStabilise(ds: seq<VolumeValue>, os: seq<VolumeValue>)
    requires AllItemsWellKeyed(ds) && AllItemsWellKeyed(os)
    ensures var twice := MergeVolumes(MergeVolumes(ds, os), os); MergeVolumes(twice, os) == twice
  {
    hide IndexBy, MergeVolumes, ItemsWellKeyed, Says;
    var once := MergeVolumes(ds, os);
    MergedWellKeyed(ds, os);
    forall i | 0 <= i < |os| ensures os[i].name in IndexBy(once, ValueName) { OverridesNamed(ds, os, i); }
    VolumesReapplyIff(once, os);
  }

  // ---------------------------------------------------------------- on the heap

  /** The values behind real volumes always have well-keyed items. */
  lemma ValuesWellKeyed(vs: seq<Volume>)
    ensures AllItemsWellKeyed(Values(vs))
  {
    forall i | 0 <= i < |vs| ensures ItemsWellKeyed(ValueOf(vs[i])) {
      if vs[i].secret != null { IndexSound(vs[i].secret.items, ItemKey); }
      if vs[i].configMap != null { IndexSound(vs[i].configMap.items, ItemKey); }
    }
  }
}
