/**
  `Volumes` merges in place: a merged volume keeps the source object of the default one and
  writes the override through it.
 */
module VolumeMerge {
  import opened Text
  import opened Sorting
  import opened KeyedMerge
  import opened PodModel

  datatype KeyToPath = KeyToPath(key: string, path: string, mode: Option<int>)

  class EmptyDirSource {
    var medium: string
    var sizeLimit: Option<Blob>
  }

  class SecretSource {
    var secretName: string
    var items: seq<KeyToPath>
    var defaultMode: Option<int>
    var optional: Option<bool>
  }

  class ConfigMapSource {
    var name: string
    var items: seq<KeyToPath>
    var defaultMode: Option<int>
    var optional: Option<bool>
  }

  /** A volume: its name and pointers to its source, plus the kinds of source that are only copied. */
  datatype Volume = Volume(name: string, emptyDir: EmptyDirSource?, secret: SecretSource?,
                           configMap: ConfigMapSource?, other: Option<Blob>)

  // ---------------------------------------------------------------- values behind the pointers

  datatype EmptyDirValue = EmptyDirValue(medium: string, sizeLimit: Option<Blob>)

  datatype FilesValue = FilesValue(name: string, items: map<string, KeyToPath>, defaultMode: Option<int>,
      optional: Option<bool>)

  datatype VolumeValue = VolumeValue(name: string, emptyDir: Option<EmptyDirValue>, secret: Option<FilesValue>,
                                     configMap: Option<FilesValue>, other: Option<Blob>)

  function ItemKey(i: KeyToPath): string { i.key }

  function VolumeName(v: Volume): string { v.name }

  function ValueName(v: VolumeValue): string { v.name }

  /** The source objects of a list of volumes. */
  ghost function AllSources(vs: seq<Volume>): set<object> {
    (set v | v in vs && v.emptyDir != null :: v.emptyDir as object) +
    (set v | v in vs && v.secret != null :: v.secret as object) +
    (set v | v in vs && v.configMap != null :: v.configMap as object)
  }

  ghost function SecretValue(s: SecretSource): FilesValue
    reads s
  {
    FilesValue(s.secretName, IndexBy(s.items, ItemKey), s.defaultMode, s.optional)
  }

  ghost function ConfigMapValue(c: ConfigMapSource): FilesValue
    reads c
  {
    FilesValue(c.name, IndexBy(c.items, ItemKey), c.defaultMode, c.optional)
  }

  /** Items are compared as the map they stand for: their order is that of a map range. */
  ghost function ValueOf(v: Volume): VolumeValue
    reads v.emptyDir, v.secret, v.configMap
  {
    VolumeValue(
      v.name,
      if v.emptyDir == null then None else Some(EmptyDirValue(v.emptyDir.medium, v.emptyDir.sizeLimit)),
      if v.secret == null then None else Some(SecretValue(v.secret)),
      if v.configMap == null then None else Some(ConfigMapValue(v.configMap)),
      v.other)
  }

  ghost function Values(vs: seq<Volume>): (r: seq<VolumeValue>)
    reads AllSources(vs)
    ensures |r| == |vs| && forall i | 0 <= i < |vs| :: r[i] == ValueOf(vs[i])
  {
    if vs == [] then [] else
      assert forall v | v in vs[..|vs| - 1] :: v in vs;
      Values(vs[..|vs| - 1]) + [ValueOf(vs[|vs| - 1])]
  }

  // ---------------------------------------------------------------- the merge on values

  function MergeKeyToPath(original: KeyToPath, override: KeyToPath): KeyToPath {
    if original.key != override.key then original
    else KeyToPath(original.key, OrString(original.path, override.path), OrSome(original.mode, override.mode))
  }

  ghost function MergeFiles(d: FilesValue, o: FilesValue): FilesValue {
    FilesValue(OrString(d.name, o.name), MergeMaps(d.items, o.items, MergeKeyToPath),
               OrSome(d.defaultMode, o.defaultMode), OrSome(d.optional, o.optional))
  }

  ghost function MergeVolume(d: VolumeValue, o: VolumeValue): VolumeValue {
    if o.emptyDir.Some? && d.emptyDir.Some? then
      var x, y := d.emptyDir.value, o.emptyDir.value;
      d.(emptyDir := Some(EmptyDirValue(OrString(x.medium, y.medium), OrSome(x.sizeLimit, y.sizeLimit))))
    else if o.secret.Some? && d.secret.Some? then
      d.(secret := Some(MergeFiles(d.secret.value, o.secret.value).(optional := d.secret.value.optional)))
    else if o.configMap.Some? && d.configMap.Some? then
      d.(configMap := Some(MergeFiles(d.configMap.value, o.configMap.value)))
    else o.(name := d.name)
  }

  /** Both sides have a source of the same kind, so the merge writes into the default's. */
  predicate SameKind(d: VolumeValue, o: VolumeValue) {
    || (o.emptyDir.Some? && d.emptyDir.Some?)
    || (o.secret.Some? && d.secret.Some?)
    || (o.configMap.Some? && d.configMap.Some?)
  }

  ghost function Overlaid(d: VolumeValue, overrides: map<string, VolumeValue>): VolumeValue {
    if d.name in overrides then MergeVolume(d, overrides[d.name]) else d
  }

  ghost function OverlaidAll(ds: seq<VolumeValue>, overrides: map<string, VolumeValue>): (r: seq<VolumeValue>)
    ensures |r| == |ds| && forall i | 0 <= i < |ds| :: r[i] == Overlaid(ds[i], overrides)
  {
    seq(|ds|, i requires 0 <= i < |ds| => Overlaid(ds[i], overrides))
  }

  /** The overrides whose name no default has, duplicates included, in order. */
  function NewOnes<T>(os: seq<T>, name: T -> string, known: set<string>): seq<T> {
    if os == [] then []
    else NewOnes(os[..|os| - 1], name, known) + if name(os[|os| - 1]) in known then [] else [os[|os| - 1]]
  }

  ghost function MergeVolumes(ds: seq<VolumeValue>, os: seq<VolumeValue>): seq<VolumeValue> {
    SliceStable(OverlaidAll(ds, IndexBy(os, ValueName)) + NewOnes(os, ValueName, IndexBy(ds, ValueName).Keys),
        ValueName)
  }

  // ---------------------------------------------------------------- items

  lemma IndexAlong<T>(ks: seq<string>, m: map<string, T>, key: T -> string)
    requires Enumerates(ks, m.Keys) && WellKeyed(m, key)
    ensures IndexBy(Along(ks, m), key) == m
  {
    var l := Along(ks, m);
    forall i | 0 <= i < |l| ensures key(l[i]) == ks[i] { assert ks[i] in ks; }
    IndexDistinct(l, key);
    IndexSound(l, key);
    forall k | k in m ensures k in IndexBy(l, key) && IndexBy(l, key)[k] == m[k] {
      assert k in ks;
      var i :| 0 <= i < |ks| && ks[i] == k;
      assert l[i] == m[k];
    }
  }

  /** Two ranges over maps, and no sort afterwards. */
  method MergeKeyToPathItems(defaultItems: seq<KeyToPath>, overrideItems: seq<KeyToPath>)
      returns (mergedItems: seq<KeyToPath>)
    ensures IndexBy(mergedItems, ItemKey)
         == MergeMaps(IndexBy(defaultItems, ItemKey), IndexBy(overrideItems, ItemKey), MergeKeyToPath)
    ensures DistinctKeys(mergedItems, ItemKey)
  {
    hide *;
    var defaultItemsMap := BuildIndex(defaultItems, ItemKey);
    var overrideItemsMap := BuildIndex(overrideItems, ItemKey);
    ghost var m := MergeMaps(defaultItemsMap, overrideItemsMap, MergeKeyToPath);
    MergeMapsAt(defaultItemsMap, overrideItemsMap, MergeKeyToPath);
    mergedItems := [];
    ghost var ks: seq<string>, done: set<string> := [], {};
    CollectNone(m);
    var pending := defaultItemsMap.Keys;
    while pending != {}
      invariant pending <= defaultItemsMap.Keys
      invariant forall k :: k in done <==> k in defaultItemsMap && k !in pending
      invariant Collected(mergedItems, ks, done, m)
      decreases |pending|
    {
      var k :| k in pending;
      CollectMore(mergedItems, ks, done, m, k);
      pending, done, ks := pending - {k}, done + {k}, ks + [k];
      var mergedKey := defaultItemsMap[k];
      if k in overrideItemsMap {
        mergedKey := MergeKeyToPath(mergedKey, overrideItemsMap[k]);
      }
      mergedItems := mergedItems + [mergedKey];
    }
    pending := overrideItemsMap.Keys;
    while pending != {}
      invariant pending <= overrideItemsMap.Keys
      invariant forall k :: k in done <==> k in defaultItemsMap || (k in overrideItemsMap && k !in pending)
      invariant Collected(mergedItems, ks, done, m)
      decreases |pending|
    {
      var k :| k in pending;
      if k !in defaultItemsMap {
        CollectMore(mergedItems, ks, done, m, k);
        mergedItems, ks, done := mergedItems + [overrideItemsMap[k]], ks + [k], done + {k};
      }
      pending := pending - {k};
    }
    assert done == m.Keys;
    ItemsCollected(defaultItems, overrideItems, mergedItems, ks);
  }

  lemma ItemsCollected(defaultItems: seq<KeyToPath>, overrideItems: seq<KeyToPath>, items: seq<KeyToPath>,
      ks: seq<string>)
    requires var m := MergeMaps(IndexBy(defaultItems, ItemKey), IndexBy(overrideItems, ItemKey), MergeKeyToPath);
      Collected(items, ks, m.Keys, m)
    ensures IndexBy(items, ItemKey)
        == MergeMaps(IndexBy(defaultItems, ItemKey), IndexBy(overrideItems, ItemKey), MergeKeyToPath)
    ensures DistinctKeys(items, ItemKey)
  {
    var m := MergeMaps(IndexBy(defaultItems, ItemKey), IndexBy(overrideItems, ItemKey), MergeKeyToPath);
    IndexSound(defaultItems, ItemKey);
    IndexSound(overrideItems, ItemKey);
    assert WellKeyed(m, ItemKey);
    IndexAlong(ks, m, ItemKey);
    forall i | 0 <= i < |ks| ensures ItemKey(items[i]) == ks[i] { assert ks[i] in ks; }
  }

  // ---------------------------------------------------------------- one volume

  method OverlayEmptyDir(d: EmptyDirSource, o: EmptyDirSource)
    modifies d
    ensures d.medium == OrString(old(d.medium), old(o.medium))
    ensures d.sizeLimit == OrSome(old(d.sizeLimit), old(o.sizeLimit))
  {
    if o.medium != "" {
      d.medium := o.medium;
    }
    if o.sizeLimit.Some? {
      d.sizeLimit := o.sizeLimit;
    }
  }

  /** A secret keeps its own `optional`: the override's is never looked at. */
  method OverlaySecret(d: SecretSource, o: SecretSource)
    modifies d
    ensures SecretValue(d) == MergeFiles(old(SecretValue(d)), old(SecretValue(o))).(optional := old(d.optional))
  {
    if o.secretName != "" {
      d.secretName := o.secretName;
    }
    var items := MergeKeyToPathItems(d.items, o.items);
    d.items := items;
    if o.defaultMode.Some? {
      d.defaultMode := o.defaultMode;
    }
  }

  method OverlayConfigMap(d: ConfigMapSource, o: ConfigMapSource)
    modifies d
    ensures ConfigMapValue(d) == MergeFiles(old(ConfigMapValue(d)), old(ConfigMapValue(o)))
  {
    if o.name != "" {
      d.name := o.name;
    }
    var items := MergeKeyToPathItems(d.items, o.items);
    d.items := items;
    if o.defaultMode.Some? {
      d.defaultMode := o.defaultMode;
    }
    if o.optional.Some? {
      d.optional := o.optional;
    }
  }

  /** Two volumes that point to the same objects. */
  predicate SamePointers(v: Volume, w: Volume) {
    v.emptyDir == w.emptyDir && v.secret == w.secret && v.configMap == w.configMap
  }

  /** Two volumes that have no object in common. */
  predicate Apart(v: Volume, w: Volume) {
    && (v.emptyDir != null ==> v.emptyDir != w.emptyDir)
    && (v.secret != null ==> v.secret != w.secret)
    && (v.configMap != null ==> v.configMap != w.configMap)
  }

  /** Merges in place; right for any sharing between the two volumes. */
  method OverlayVolume(defaultVolume: Volume, overrideVolume: Volume) returns (merged: Volume)
    modifies defaultVolume.emptyDir, defaultVolume.secret, defaultVolume.configMap
    ensures ValueOf(merged) == MergeVolume(old(ValueOf(defaultVolume)), old(ValueOf(overrideVolume)))
    ensures merged == if SameKind(old(ValueOf(defaultVolume)), old(ValueOf(overrideVolume))) then defaultVolume
                      else overrideVolume.(name := defaultVolume.name)
    ensures ValueOf(defaultVolume) == if SameKind(old(ValueOf(defaultVolume)), old(ValueOf(overrideVolume)))
                                      then ValueOf(merged) else old(ValueOf(defaultVolume))
  {
    hide MergeFiles;
    merged := defaultVolume;
    if overrideVolume.emptyDir != null && defaultVolume.emptyDir != null {
      OverlayEmptyDir(merged.emptyDir, overrideVolume.emptyDir);
    } else if overrideVolume.secret != null && defaultVolume.secret != null {
      OverlaySecret(merged.secret, overrideVolume.secret);
    } else if overrideVolume.configMap != null && defaultVolume.configMap != null {
      OverlayConfigMap(merged.configMap, overrideVolume.configMap);
    } else {
      merged := overrideVolume.(name := defaultVolume.name);
    }
  }

  // ---------------------------------------------------------------- the list of volumes

  /**
    The volume points to the very objects of the override it is merged with, so the merge writes back what is there.
   */
  predicate MergesWithItself(v: Volume, overrides: map<string, Volume>) {
    v.name in overrides && SamePointers(v, overrides[v.name])
  }

  /** No other volume of either list points to an object of `ds[i]`. */
  ghost predicate Alone(ds: seq<Volume>, os: seq<Volume>, i: nat)
    requires i < |ds|
  {
    && (forall j | 0 <= j < |ds| && j != i :: Apart(ds[i], ds[j]))
    && (forall j | 0 <= j < |os| :: Apart(ds[i], os[j]))
  }

  /** A default volume may share source objects only if it is merged with itself. */
  ghost predicate SafelyShared(ds: seq<Volume>, os: seq<Volume>) {
    forall i | 0 <= i < |ds| :: MergesWithItself(ds[i], IndexBy(os, VolumeName)) || Alone(ds, os, i)
  }

  /** What the caller's own default volume shows afterwards. */
  ghost function LeftBehind(d: VolumeValue, overrides: map<string, VolumeValue>): VolumeValue {
    if d.name in overrides && SameKind(d, overrides[d.name]) then MergeVolume(d, overrides[d.name]) else d
  }

  lemma {:induction false} IndexValues(vs: seq<Volume>)
    ensures var m, n := IndexBy(vs, VolumeName), IndexBy(Values(vs), ValueName);
      && m.Keys == n.Keys
      && forall k | k in m :: m[k] in vs && m[k].name == k && ValueOf(m[k]) == n[k]
  {
    if vs != [] {
      IndexValues(vs[..|vs| - 1]);
      assert Values(vs)[..|vs| - 1] == Values(vs[..|vs| - 1]);
    }
  }

  lemma {:induction false} ValuesConcat(a: seq<Volume>, b: seq<Volume>)
    ensures Values(a + b) == Values(a) + Values(b)
  {
  }

  lemma {:induction false} NewOnesValues(os: seq<Volume>, known: set<string>)
    ensures Values(NewOnes(os, VolumeName, known)) == NewOnes(Values(os), ValueName, known)
  {
    if os != [] {
      NewOnesValues(os[..|os| - 1], known);
      assert Values(os)[..|os| - 1] == Values(os[..|os| - 1]);
      ValuesConcat(NewOnes(os[..|os| - 1], VolumeName, known),
                   if os[|os| - 1].name in known then [] else [os[|os| - 1]]);
    }
  }

  lemma {:induction false} InsertValues(vs: seq<Volume>, v: Volume)
    ensures Values(Insert(vs, v, VolumeName)) == Insert(Values(vs), ValueOf(v), ValueName)
  {
    if vs != [] && Less(v.name, vs[|vs| - 1].name) {
      InsertValues(vs[..|vs| - 1], v);
      assert Values(vs)[..|vs| - 1] == Values(vs[..|vs| - 1]);
    }
  }

  /** Sorting pointers to volumes by name sorts the values behind them. */
  lemma {:induction false} SortValues(vs: seq<Volume>)
    ensures Values(SliceStable(vs, VolumeName)) == SliceStable(Values(vs), ValueName)
  {
    if vs != [] {
      SortValues(vs[..|vs| - 1]);
      InsertValues(SliceStable(vs[..|vs| - 1], VolumeName), vs[|vs| - 1]);
      assert Values(vs)[..|vs| - 1] == Values(vs[..|vs| - 1]);
    }
  }

  lemma FilesSelf(o: FilesValue)
    requires WellKeyed(o.items, ItemKey)
    ensures MergeFiles(o, o) == o
  {
    forall k | k in o.items ensures MergeKeyToPath(o.items[k], o.items[k]) == o.items[k] { }
    assert MergeMaps(o.items, o.items, MergeKeyToPath) == o.items;
  }
}
