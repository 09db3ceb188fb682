/** When laying three lists of volumes over each other does not depend on which two are merged first. */
module VolumeAssociativity {
  import opened Text
  import opened Sorting
  import opened KeyedMerge
  import opened MergeLaws
  import opened PodModel
  import opened VolumeMerge
  import opened VolumeLaws

  // ---------------------------------------------------------------- one volume

  /** A volume has at most one source, as the API asks. */
  predicate OneSource(v: VolumeValue) {
    && (v.emptyDir.Some? ==> v.secret.None? && v.configMap.None? && v.other.None?)
    && (v.secret.Some? ==> v.configMap.None? && v.other.None?)
    && (v.configMap.Some? ==> v.other.None?)
  }

  /** The field of `x` is empty, or `z` has one to put over it. */
  predicate YieldsString(x: string, z: string) { x == "" || z != "" }

  predicate YieldsSome<T>(x: Option<T>, z: Option<T>) { x.None? || z.Some? }

  /** Every item of `x` is in `z`, and hides all of it. */
  predicate YieldsItems(x: map<string, KeyToPath>, z: map<string, KeyToPath>) {
    forall k | k in x :: k in z && YieldsString(x[k].path, z[k].path) && YieldsSome(x[k].mode, z[k].mode)
  }

  predicate YieldsFiles(x: FilesValue, z: FilesValue) {
    YieldsString(x.name, z.name) && YieldsItems(x.items, z.items) && YieldsSome(x.defaultMode, z.defaultMode)
  }

  /** Field by field: of `x` nothing would be left under `z`. A secret always keeps its own `optional`. */
  predicate Yields(x: VolumeValue, z: VolumeValue) {
    if x.emptyDir.Some? && z.emptyDir.Some? then
      && YieldsString(x.emptyDir.value.medium, z.emptyDir.value.medium)
      && YieldsSome(x.emptyDir.value.sizeLimit, z.emptyDir.value.sizeLimit)
    else if x.secret.Some? && z.secret.Some? then
      YieldsFiles(x.secret.value, z.secret.value) && x.secret.value.optional == z.secret.value.optional
    else if x.configMap.Some? && z.configMap.Some? then
      YieldsFiles(x.configMap.value, z.configMap.value)
          && YieldsSome(x.configMap.value.optional, z.configMap.value.optional)
    else true
  }

  lemma YieldsItemsIff(x: map<string, KeyToPath>, z: map<string, KeyToPath>)
    requires WellKeyed(x, ItemKey) && WellKeyed(z, ItemKey)
    ensures MergeMaps(x, z, MergeKeyToPath) == z <==> YieldsItems(x, z)
  {
    var m := MergeMaps(x, z, MergeKeyToPath);
    forall k | k in x && k in z
      ensures m[k] == z[k] <==> YieldsString(x[k].path, z[k].path) && YieldsSome(x[k].mode, z[k].mode)
    {
      assert ItemKey(x[k]) == k == ItemKey(z[k]);
    }
    if YieldsItems(x, z) {
      assert m.Keys == z.Keys;
      forall k | k in z ensures m[k] == z[k] { }
    } else {
      var k :| k in x && !(k in z && YieldsString(x[k].path, z[k].path) && YieldsSome(x[k].mode, z[k].mode));
      assert k in m;
      assert k !in z || m[k] != z[k];
    }
  }

  lemma YieldsIff(x: VolumeValue, z: VolumeValue)
    requires ItemsWellKeyed(x) && ItemsWellKeyed(z) && OneSource(x) && OneSource(z) && x.name == z.name
    ensures MergeVolume(x, z) == z <==> Yields(x, z)
  {
    hide YieldsItems;
    if x.secret.Some? && z.secret.Some? { YieldsItemsIff(x.secret.value.items, z.secret.value.items); }
    if x.configMap.Some? && z.configMap.Some? { YieldsItemsIff(x.configMap.value.items, z.configMap.value.items); }
  }

  lemma ItemsAssociative(x: map<string, KeyToPath>, y: map<string, KeyToPath>, z: map<string, KeyToPath>)
    requires WellKeyed(x, ItemKey) && WellKeyed(y, ItemKey) && WellKeyed(z, ItemKey)
    ensures MergeMaps(MergeMaps(x, y, MergeKeyToPath), z, MergeKeyToPath)
        == MergeMaps(x, MergeMaps(y, z, MergeKeyToPath), MergeKeyToPath)
  {
    forall k | k in x && k in y && k in z
      ensures MergeKeyToPath(MergeKeyToPath(x[k], y[k]), z[k]) == MergeKeyToPath(x[k], MergeKeyToPath(y[k], z[k]))
    {
      assert ItemKey(x[k]) == ItemKey(y[k]) == ItemKey(z[k]);
    }
    MergeMapsAssociative(x, y, z, MergeKeyToPath);
  }

  lemma FilesAssociative(x: FilesValue, y: FilesValue, z: FilesValue)
    requires WellKeyed(x.items, ItemKey) && WellKeyed(y.items, ItemKey) && WellKeyed(z.items, ItemKey)
    ensures MergeFiles(MergeFiles(x, y), z) == MergeFiles(x, MergeFiles(y, z))
  {
    ItemsAssociative(x.items, y.items, z.items);
  }

  /** Only one thing breaks it: a middle volume of another kind takes away what the first would still show. */
  predicate KindsAssociate(x: VolumeValue, y: VolumeValue, z: VolumeValue) {
    SameKind(x, z) && !SameKind(x, y) ==> Yields(x, z)
  }

  lemma VolumeAssociativeIff(x: VolumeValue, y: VolumeValue, z: VolumeValue)
    requires OneSource(x) && OneSource(y) && OneSource(z) && x.name == y.name == z.name
    requires ItemsWellKeyed(x) && ItemsWellKeyed(y) && ItemsWellKeyed(z)
    ensures MergeVolume(MergeVolume(x, y), z) == MergeVolume(x, MergeVolume(y, z)) <==> KindsAssociate(x, y, z)
  {
    hide Yields;
    YieldsIff(x, z);
    if x.secret.Some? && y.secret.Some? && z.secret.Some? {
      FilesAssociative(x.secret.value, y.secret.value, z.secret.value);
    }
    if x.configMap.Some? && y.configMap.Some? && z.configMap.Some? {
      FilesAssociative(x.configMap.value, y.configMap.value, z.configMap.value);
    }
  }

  // ---------------------------------------------------------------- lists with one volume per name

  lemma VolumesKeepName(a: seq<VolumeValue>, b: seq<VolumeValue>)
    ensures KeepsKey(a, b, ValueName, MergeVolume)
  {
    KeepsKeyAlways(a, b, ValueName, MergeVolume);
  }

  lemma {:induction false} NewOnesDistinct(os: seq<VolumeValue>, known: set<string>)
    requires DistinctKeys(os, ValueName)
    ensures DistinctKeys(NewOnes(os, ValueName, known), ValueName)
  {
    if os != [] {
      NewOnesDistinct(os[..|os| - 1], known);
      NewOnesMembers(os[..|os| - 1], known);
      var front := NewOnes(os[..|os| - 1], ValueName, known);
      forall i | 0 <= i < |front| ensures ValueName(front[i]) != ValueName(os[|os| - 1]) {
        assert front[i] in os[..|os| - 1];
      }
    }
  }

  /** The list before it is sorted. */
  ghost function Unsorted(ds: seq<VolumeValue>, os: seq<VolumeValue>): seq<VolumeValue> {
    OverlaidAll(ds, IndexBy(os, ValueName)) + NewOnes(os, ValueName, IndexBy(ds, ValueName).Keys)
  }

  ghost function UnsortedKeys(ds: seq<VolumeValue>, os: seq<VolumeValue>): seq<string> {
    KeysOf(ds, ValueName) + KeysOf(NewOnes(os, ValueName, IndexBy(ds, ValueName).Keys), ValueName)
  }

  ghost function MergedIndex(ds: seq<VolumeValue>, os: seq<VolumeValue>): map<string, VolumeValue> {
    MergeMaps(IndexBy(ds, ValueName), IndexBy(os, ValueName), MergeVolume)
  }

  lemma IndexOfDistinct(vs: seq<VolumeValue>, v: VolumeValue)
    requires DistinctKeys(vs, ValueName) && v in vs
    ensures v.name in IndexBy(vs, ValueName) && IndexBy(vs, ValueName)[v.name] == v
  {
    IndexDistinct(vs, ValueName);
    var i :| 0 <= i < |vs| && vs[i] == v;
    assert ValueName(vs[i]) == v.name;
  }

  lemma UnsortedAt(ds: seq<VolumeValue>, os: seq<VolumeValue>, i: nat)
    requires DistinctKeys(ds, ValueName) && DistinctKeys(os, ValueName) && i < |Unsorted(ds, os)|
    ensures |UnsortedKeys(ds, os)| == |Unsorted(ds, os)|
    ensures UnsortedKeys(ds, os)[i] in MergedIndex(ds, os)
    ensures Unsorted(ds, os)[i] == MergedIndex(ds, os)[UnsortedKeys(ds, os)[i]]
  {
    hide MergeVolume, IndexBy, NewOnes;
    var D, O := IndexBy(ds, ValueName), IndexBy(os, ValueName);
    if i < |ds| {
      IndexOfDistinct(ds, ds[i]);
    } else {
      var x := NewOnes(os, ValueName, D.Keys)[i - |ds|];
      NewOnesMembers(os, D.Keys);
      assert x in NewOnes(os, ValueName, D.Keys);
      IndexOfDistinct(os, x);
    }
  }

  lemma UnsortedHas(ds: seq<VolumeValue>, os: seq<VolumeValue>, k: string)
    requires k in MergedIndex(ds, os)
    ensures k in UnsortedKeys(ds, os)
  {
    hide MergeVolume, IndexBy, NewOnes;
    var D, O := IndexBy(ds, ValueName), IndexBy(os, ValueName);
    var news := NewOnes(os, ValueName, D.Keys);
    IndexSound(ds, ValueName);
    IndexSound(os, ValueName);
    if k in D {
      assert D[k] in ds;
      var i :| 0 <= i < |ds| && ds[i] == D[k];
      assert UnsortedKeys(ds, os)[i] == k;
    } else {
      assert ValueName(O[k]) == k;
      NewOnesMembers(os, D.Keys);
      assert O[k] in news;
      var i :| 0 <= i < |news| && news[i] == O[k];
      assert UnsortedKeys(ds, os)[|ds| + i] == k;
    }
  }

  lemma UnsortedDistinct(ds: seq<VolumeValue>, os: seq<VolumeValue>)
    requires DistinctKeys(ds, ValueName) && DistinctKeys(os, ValueName)
    ensures forall i, j | 0 <= i < j < |UnsortedKeys(ds, os)| :: UnsortedKeys(ds, os)[i] != UnsortedKeys(ds, os)[j]
  {
    hide IndexBy, NewOnes;
    var D := IndexBy(ds, ValueName);
    var news := NewOnes(os, ValueName, D.Keys);
    NewOnesDistinct(os, D.Keys);
    NewOnesMembers(os, D.Keys);
    IndexSound(ds, ValueName);
    var ks := UnsortedKeys(ds, os);
    forall i, j | 0 <= i < j < |ks| ensures ks[i] != ks[j] {
      if i < |ds| <= j {
        assert news[j - |ds|] in news && ds[i] in ds;
      }
    }
  }

  /** It holds each key of the merged index once, with its value. */
  lemma UnsortedEnumerates(ds: seq<VolumeValue>, os: seq<VolumeValue>)
    requires DistinctKeys(ds, ValueName) && DistinctKeys(os, ValueName)
    ensures Enumerates(UnsortedKeys(ds, os), MergedIndex(ds, os).Keys)
    ensures Unsorted(ds, os) == Along(UnsortedKeys(ds, os), MergedIndex(ds, os))
  {
    var ks, all, m := UnsortedKeys(ds, os), Unsorted(ds, os), MergedIndex(ds, os);
    assert |ks| == |all|;
    hide *;
    forall i | 0 <= i < |all| ensures |ks| == |all| && ks[i] in m && all[i] == m[ks[i]] {
      UnsortedAt(ds, os, i);
    }
    forall k | k in m ensures k in ks {
      UnsortedHas(ds, os, k);
    }
    UnsortedDistinct(ds, os);
    EnumeratesAll(ks, all, m);
  }

  lemma EnumeratesAll(ks: seq<string>, all: seq<VolumeValue>, m: map<string, VolumeValue>)
    requires |ks| == |all| && forall i | 0 <= i < |all| :: ks[i] in m && all[i] == m[ks[i]]
    requires forall k | k in m :: k in ks
    requires forall i, j | 0 <= i < j < |ks| :: ks[i] != ks[j]
    ensures Enumerates(ks, m.Keys) && all == Along(ks, m)
  {
  }

  /** With one volume per name in each list, merging volumes is the keyed merge. */
  lemma MergeIsKeyed(ds: seq<VolumeValue>, os: seq<VolumeValue>)
    requires DistinctKeys(ds, ValueName) && DistinctKeys(os, ValueName)
    ensures MergeVolumes(ds, os) == MergeBy(ds, os, ValueName, MergeVolume)
    ensures DistinctKeys(MergeVolumes(ds, os), ValueName)
  {
    hide MergeVolume, IndexBy, NewOnes, SliceStable;
    UnsortedEnumerates(ds, os);
    VolumesKeepName(ds, os);
    SortedRangeIsListing(UnsortedKeys(ds, os),
        MergeMaps(IndexBy(ds, ValueName), IndexBy(os, ValueName), MergeVolume), ValueName);
    MergeContents(ds, os, ValueName, MergeVolume);
    AscendingDistinct(MergeVolumes(ds, os), ValueName);
  }

  /** One volume per name, one source each. */
  ghost predicate Proper(vs: seq<VolumeValue>) {
    DistinctKeys(vs, ValueName) && AllItemsWellKeyed(vs) && forall v | v in vs :: OneSource(v)
  }

  lemma AssociatesIff(a: seq<VolumeValue>, b: seq<VolumeValue>, c: seq<VolumeValue>, k: string)
    requires Proper(a) && Proper(b) && Proper(c)
    requires k in IndexBy(a, ValueName) && k in IndexBy(b, ValueName) && k in IndexBy(c, ValueName)
    ensures var x, y, z := IndexBy(a, ValueName)[k], IndexBy(b, ValueName)[k], IndexBy(c, ValueName)[k];
      MergeVolume(MergeVolume(x, y), z) == MergeVolume(x, MergeVolume(y, z)) <==> KindsAssociate(x, y, z)
  {
    hide MergeVolume, KindsAssociate, IndexBy, OneSource, ItemsWellKeyed;
    ProperEntry(a, k);
    ProperEntry(b, k);
    ProperEntry(c, k);
    VolumeAssociativeIff(IndexBy(a, ValueName)[k], IndexBy(b, ValueName)[k], IndexBy(c, ValueName)[k]);
  }

  lemma ProperEntry(vs: seq<VolumeValue>, k: string)
    requires Proper(vs) && k in IndexBy(vs, ValueName)
    ensures var v := IndexBy(vs, ValueName)[k]; v.name == k && OneSource(v) && ItemsWellKeyed(v)
  {
    hide OneSource, ItemsWellKeyed, IndexBy;
    IndexSound(vs, ValueName);
    var v := IndexBy(vs, ValueName)[k];
    assert ValueName(v) == k;
    var i :| 0 <= i < |vs| && vs[i] == v;
  }

  /** For every name of all three lists, the middle volume takes nothing away. */
  ghost predicate VolumesAssociate(a: seq<VolumeValue>, b: seq<VolumeValue>, c: seq<VolumeValue>) {
    var A, B, C := IndexBy(a, ValueName), IndexBy(b, ValueName), IndexBy(c, ValueName);
    forall k | k in A && k in B && k in C :: KindsAssociate(A[k], B[k], C[k])
  }

  /** Proper lists of volumes merge associatively exactly when no middle volume of another kind takes anything away. */
  lemma VolumesAssociativeIff(a: seq<VolumeValue>, b: seq<VolumeValue>, c: seq<VolumeValue>)
    requires Proper(a) && Proper(b) && Proper(c)
    ensures MergeVolumes(MergeVolumes(a, b), c) == MergeVolumes(a, MergeVolumes(b, c)) <==> VolumesAssociate(a, b, c)
  {
    hide MergeVolume, MergeVolumes, IndexBy, KindsAssociate, DistinctKeys, KeepsKey, MergeBy;
    MergeIsKeyed(a, b);
    MergeIsKeyed(b, c);
    MergeIsKeyed(MergeVolumes(a, b), c);
    MergeIsKeyed(a, MergeVolumes(b, c));
    VolumesKeepName(a, b);
    VolumesKeepName(b, c);
    VolumesKeepName(MergeVolumes(a, b), c);
    VolumesKeepName(a, MergeVolumes(b, c));
    MergeAssociativeIff(a, b, c, ValueName, MergeVolume);
    var A, B, C := IndexBy(a, ValueName), IndexBy(b, ValueName), IndexBy(c, ValueName);
    forall k | k in A && k in B && k in C { AssociatesIff(a, b, c, k); }
  }

  lemma SingleVolume(v: VolumeValue)
    requires OneSource(v) && ItemsWellKeyed(v)
    ensures Proper([v]) && IndexBy([v], ValueName) == map[v.name := v]
  {
    assert [v][..0] == [];
  }

  /** A memory volume, then a secret, then a volume with a size limit: the secret takes the medium away, or does not. */
  lemma MiddleTakesAway(name: string, secret: FilesValue, limit: Blob)
    requires WellKeyed(secret.items, ItemKey)
    ensures var x := VolumeValue(name, Some(EmptyDirValue("Memory", None)), None, None, None);
            var y := VolumeValue(name, None, Some(secret), None, None);
            var z := VolumeValue(name, Some(EmptyDirValue("", Some(limit))), None, None, None);
      MergeVolumes(MergeVolumes([x], [y]), [z]) != MergeVolumes([x], MergeVolumes([y], [z]))
  {
    hide MergeVolumes, Proper, IndexBy;
    var x := VolumeValue(name, Some(EmptyDirValue("Memory", None)), None, None, None);
    var y := VolumeValue(name, None, Some(secret), None, None);
    var z := VolumeValue(name, Some(EmptyDirValue("", Some(limit))), None, None, None);
    SingleVolume(x);
    SingleVolume(y);
    SingleVolume(z);
    assert "Memory"[0] == 'M';
    assert !Yields(x, z) && !KindsAssociate(x, y, z);
    VolumesAssociativeIff([x], [y], [z]);
    assert name in IndexBy([x], ValueName) && name in IndexBy([y], ValueName) && name in IndexBy([z], ValueName);
  }
}
