/**
  Merging volumes in place when they share source objects: what each turn writes is seen through every volume that
  points to the same object. Told on the pointers and on the values behind them.
 */
module VolumeSharing {
  import opened Text
  import opened Sorting
  import opened KeyedMerge
  import opened PodModel
  import opened VolumeMerge
  import opened VolumeLaws

  datatype Kind = EmptyDirKind | SecretKind | ConfigMapKind

  /** Both volumes point to one source object of this kind. */
  predicate SameObject(v: Volume, w: Volume, kind: Kind) {
    match kind
    case EmptyDirKind => v.emptyDir != null && v.emptyDir == w.emptyDir
    case SecretKind => v.secret != null && v.secret == w.secret
    case ConfigMapKind => v.configMap != null && v.configMap == w.configMap
  }

  /** One source of a volume, alone. */
  function Part(x: VolumeValue, kind: Kind): VolumeValue {
    match kind
    case EmptyDirKind => VolumeValue("", x.emptyDir, None, None, None)
    case SecretKind => VolumeValue("", None, x.secret, None, None)
    case ConfigMapKind => VolumeValue("", None, None, x.configMap, None)
  }

  lemma PartsTell(x: VolumeValue, y: VolumeValue)
    requires x.name == y.name && x.other == y.other
    requires Part(x, EmptyDirKind) == Part(y, EmptyDirKind) && Part(x, SecretKind) == Part(y, SecretKind)
    requires Part(x, ConfigMapKind) == Part(y, ConfigMapKind)
    ensures x == y
  {
  }

  /** The value has a source exactly where the volume has a pointer. */
  predicate Shape(v: Volume, x: VolumeValue) {
    && x.name == v.name && x.other == v.other
    && (x.emptyDir.Some? <==> v.emptyDir != null)
    && (x.secret.Some? <==> v.secret != null)
    && (x.configMap.Some? <==> v.configMap != null)
  }

  /** These can be the values behind these volumes: an object has one value, whoever points to it. */
  ghost predicate Fits(all: seq<Volume>, vals: seq<VolumeValue>) {
    && |all| == |vals|
    && (forall k | 0 <= k < |all| :: Shape(all[k], vals[k]))
    && (forall j, k, kind | 0 <= j < |all| && 0 <= k < |all| && SameObject(all[j], all[k], kind) ::
          Part(vals[j], kind) == Part(vals[k], kind))
  }

  // ---------------------------------------------------------------- the turns

  /** `x`, the value of `v`, once the objects of `w` have the value `y`. */
  function Spread(v: Volume, x: VolumeValue, w: Volume, y: VolumeValue): VolumeValue {
    x.(emptyDir := if SameObject(v, w, EmptyDirKind) then y.emptyDir else x.emptyDir,
       secret := if SameObject(v, w, SecretKind) then y.secret else x.secret,
       configMap := if SameObject(v, w, ConfigMapKind) then y.configMap else x.configMap)
  }

  lemma SpreadPart(v: Volume, x: VolumeValue, w: Volume, y: VolumeValue, kind: Kind)
    ensures Part(Spread(v, x, w, y), kind) == if SameObject(v, w, kind) then Part(y, kind) else Part(x, kind)
  {
  }

  ghost function SpreadAll(all: seq<Volume>, vals: seq<VolumeValue>, w: Volume, y: VolumeValue): (r: seq<VolumeValue>)
    requires |all| == |vals|
    ensures |r| == |vals| && forall k | 0 <= k < |r| :: r[k] == Spread(all[k], vals[k], w, y)
  {
    seq(|vals|, k requires 0 <= k < |vals| => Spread(all[k], vals[k], w, y))
  }

  /** The overrides by name, as they are when the values are these. */
  ghost function Current(ds: seq<Volume>, vals: seq<VolumeValue>): map<string, VolumeValue>
    requires |ds| <= |vals|
  {
    IndexBy(vals[|ds|..], ValueName)
  }

  /** What `ds[i]` shows once turn `i` has written through its pointers. */
  ghost function Written(ds: seq<Volume>, vals: seq<VolumeValue>, i: nat): VolumeValue
    requires i < |ds| <= |vals|
  {
    LeftBehind(vals[i], Current(ds, vals))
  }

  /** Turn `i`, and everything that points to what it writes. */
  ghost function Turn(ds: seq<Volume>, os: seq<Volume>, vals: seq<VolumeValue>, i: nat): (r: seq<VolumeValue>)
    requires |vals| == |ds| + |os| && i < |ds|
    ensures |r| == |vals|
  {
    SpreadAll(ds + os, vals, ds[i], Written(ds, vals, i))
  }

  ghost function After(ds: seq<Volume>, os: seq<Volume>, vals: seq<VolumeValue>, n: nat): (r: seq<VolumeValue>)
    requires |vals| == |ds| + |os| && n <= |ds|
    ensures |r| == |vals|
  {
    if n == 0 then vals else Turn(ds, os, After(ds, os, vals, n - 1), n - 1)
  }

  /** Both volumes have a source of the same kind. */
  predicate SameSource(d: Volume, o: Volume) {
    || (o.emptyDir != null && d.emptyDir != null)
    || (o.secret != null && d.secret != null)
    || (o.configMap != null && d.configMap != null)
  }

  /** The merged volume keeps the pointers of its default. */
  predicate Keeps(d: Volume, overrides: map<string, Volume>) {
    d.name in overrides ==> SameSource(d, overrides[d.name])
  }

  /** The merged volume as pointers: the default's, or those of an override of another kind. */
  function Stem(d: Volume, overrides: map<string, Volume>): Volume {
    if Keeps(d, overrides) then d else overrides[d.name].(name := d.name)
  }

  function Stems(ds: seq<Volume>, overrides: map<string, Volume>): (r: seq<Volume>)
    ensures |r| == |ds| && forall i | 0 <= i < |r| :: r[i] == Stem(ds[i], overrides)
  {
    seq(|ds|, i requires 0 <= i < |ds| => Stem(ds[i], overrides))
  }

  /** What the merged volume `i` shows once the values are these. */
  ghost function Shown(ds: seq<Volume>, os: seq<Volume>, vals: seq<VolumeValue>, i: nat): VolumeValue
    requires |vals| == |ds| + |os| && i < |ds|
  {
    var O, V := IndexBy(os, VolumeName), Current(ds, vals);
    if Keeps(ds[i], O) || ds[i].name !in V then vals[i] else V[ds[i].name].(name := ds[i].name)
  }

  // ---------------------------------------------------------------- the overrides in use

  /** No later override has this name. */
  predicate IsLast(os: seq<Volume>, j: nat)
    requires j < |os|
  {
    forall l | j < l < |os| :: os[l].name != os[j].name
  }

  /** The merge reads an override that is the last of its name, and returns one whose name is new. */
  predicate Used(ds: seq<Volume>, os: seq<Volume>, j: nat)
    requires j < |os|
  {
    os[j].name !in IndexBy(ds, VolumeName) || IsLast(os, j)
  }

  /** No default shares an object with an override in use, unless it is merged with itself. */
  ghost predicate OverridesStill(ds: seq<Volume>, os: seq<Volume>) {
    forall i | 0 <= i < |ds| ::
      || MergesWithItself(ds[i], IndexBy(os, VolumeName))
      || forall j | 0 <= j < |os| && Used(ds, os, j) :: Apart(ds[i], os[j])
  }

  /** Wherever two merged defaults point to one object, their merges put the same into it. */
  ghost predicate SharersAgree(ds: seq<Volume>, os: seq<Volume>, vals: seq<VolumeValue>)
    requires |vals| == |ds| + |os|
  {
    var O, V := IndexBy(os, VolumeName), Current(ds, vals);
    forall i, j, kind | 0 <= i < |ds| && 0 <= j < |ds| && Keeps(ds[i], O) && Keeps(ds[j], O)
                        && SameObject(ds[i], ds[j], kind) ::
      Part(Overlaid(vals[i], V), kind) == Part(Overlaid(vals[j], V), kind)
  }

  /** The last entry of a name: the one an index holds. */
  lemma {:induction false} LastEntry<T>(s: seq<T>, key: T -> string, k: string) returns (j: nat)
    requires k in IndexBy(s, key)
    ensures j < |s| && key(s[j]) == k && IndexBy(s, key)[k] == s[j]
    ensures forall l | j < l < |s| :: key(s[l]) != k
  {
    if key(s[|s| - 1]) == k {
      j := |s| - 1;
    } else {
      j := LastEntry(s[..|s| - 1], key, k);
    }
  }

  lemma {:induction false} IndexNames(os: seq<Volume>, vals: seq<VolumeValue>)
    requires |os| == |vals| && forall j | 0 <= j < |os| :: vals[j].name == os[j].name
    ensures IndexBy(os, VolumeName).Keys == IndexBy(vals, ValueName).Keys
  {
    if os != [] {
      IndexNames(os[..|os| - 1], vals[..|os| - 1]);
    }
  }

  /** Pointers and values have the last entry of a name in the same place. */
  lemma LastOverride(os: seq<Volume>, vals: seq<VolumeValue>, k: string) returns (j: nat)
    requires |os| == |vals| && forall j | 0 <= j < |os| :: vals[j].name == os[j].name
    requires k in IndexBy(os, VolumeName)
    ensures j < |os| && os[j].name == k && IsLast(os, j)
    ensures IndexBy(os, VolumeName)[k] == os[j]
    ensures k in IndexBy(vals, ValueName) && IndexBy(vals, ValueName)[k] == vals[j]
  {
    IndexNames(os, vals);
    j := LastEntry(os, VolumeName, k);
    var l := LastEntry(vals, ValueName, k);
    assert ValueName(vals[j]) == k && VolumeName(os[l]) == k;
  }

  /** If the last override of every name is as it was, so is the index of the overrides. */
  lemma CurrentUnchanged(ds: seq<Volume>, os: seq<Volume>, vals: seq<VolumeValue>, now: seq<VolumeValue>)
    requires |vals| == |now| == |ds| + |os| && Fits(ds + os, vals) && Fits(ds + os, now)
    requires forall j | 0 <= j < |os| && IsLast(os, j) :: now[|ds| + j] == vals[|ds| + j]
    ensures Current(ds, now) == Current(ds, vals)
  {
    hide IndexBy;
    var was, is_ := vals[|ds|..], now[|ds|..];
    forall j | 0 <= j < |os| ensures was[j].name == os[j].name == is_[j].name {
      assert Shape((ds + os)[|ds| + j], vals[|ds| + j]) && Shape((ds + os)[|ds| + j], now[|ds| + j]);
    }
    IndexNames(os, was);
    IndexNames(os, is_);
    forall k | k in IndexBy(os, VolumeName) ensures IndexBy(was, ValueName)[k] == IndexBy(is_, ValueName)[k] {
      var j := LastOverride(os, was, k);
      var l := LastOverride(os, is_, k);
      assert j == l;
    }
  }

  // ---------------------------------------------------------------- what stays consistent

  lemma LeftShape(v: Volume, x: VolumeValue, overrides: map<string, VolumeValue>)
    requires Shape(v, x)
    ensures Shape(v, LeftBehind(x, overrides))
  {
    hide MergeFiles;
  }

  lemma SameObjectBothWays(u: Volume, v: Volume, w: Volume, kind: Kind)
    requires SameObject(u, v, kind)
    ensures SameObject(v, u, kind) && (SameObject(u, w, kind) <==> SameObject(v, w, kind))
  {
  }

  lemma TurnFits(ds: seq<Volume>, os: seq<Volume>, vals: seq<VolumeValue>, i: nat)
    requires |vals| == |ds| + |os| && i < |ds| && Fits(ds + os, vals)
    ensures Fits(ds + os, Turn(ds, os, vals, i))
  {
    hide LeftBehind, Current, Part, SameObject;
    var all, left, r := ds + os, LeftBehind(vals[i], Current(ds, vals)), Turn(ds, os, vals, i);
    assert all[i] == ds[i];
    LeftShape(ds[i], vals[i], Current(ds, vals));
    forall k | 0 <= k < |all| ensures Shape(all[k], r[k]) {
      SpreadShape(all[k], vals[k], ds[i], left);
    }
    forall j, k, kind | 0 <= j < |all| && 0 <= k < |all| && SameObject(all[j], all[k], kind)
      ensures Part(r[j], kind) == Part(r[k], kind)
    {
      SpreadPart(all[j], vals[j], ds[i], left, kind);
      SpreadPart(all[k], vals[k], ds[i], left, kind);
      SameObjectBothWays(all[j], all[k], ds[i], kind);
    }
  }

  lemma SpreadShape(v: Volume, x: VolumeValue, w: Volume, y: VolumeValue)
    requires Shape(v, x) && Shape(w, y)
    ensures Shape(v, Spread(v, x, w, y))
  {
  }

  lemma {:induction false} AfterFits(ds: seq<Volume>, os: seq<Volume>, vals: seq<VolumeValue>, n: nat)
    requires |vals| == |ds| + |os| && n <= |ds| && Fits(ds + os, vals)
    ensures Fits(ds + os, After(ds, os, vals, n))
  {
    hide Fits, Turn;
    if n > 0 {
      AfterFits(ds, os, vals, n - 1);
      TurnFits(ds, os, After(ds, os, vals, n - 1), n - 1);
    }
  }

  // ---------------------------------------------------------------- who wrote an object last

  /** The last of the first `n` defaults that keep a pointer to this object of `v`, if any. */
  function Writer(ds: seq<Volume>, os: seq<Volume>, n: nat, v: Volume, kind: Kind): (w: int)
    requires n <= |ds|
    ensures -1 <= w < n
    ensures w >= 0 ==> Keeps(ds[w], IndexBy(os, VolumeName)) && SameObject(v, ds[w], kind)
    ensures w < 0 ==> forall j | 0 <= j < n && Keeps(ds[j], IndexBy(os, VolumeName)) :: !SameObject(v, ds[j], kind)
  {
    if n == 0 then -1
    else if Keeps(ds[n - 1], IndexBy(os, VolumeName)) && SameObject(v, ds[n - 1], kind) then n - 1
    else Writer(ds, os, n - 1, v, kind)
  }

  lemma {:induction false} WriterOfSharers(ds: seq<Volume>, os: seq<Volume>, n: nat, v: Volume, w: Volume, kind: Kind)
    requires n <= |ds| && SameObject(v, w, kind)
    ensures Writer(ds, os, n, v, kind) == Writer(ds, os, n, w, kind)
  {
    if n > 0 {
      SameObjectBothWays(v, w, ds[n - 1], kind);
      WriterOfSharers(ds, os, n - 1, v, w, kind);
    }
  }

  /** What an object should hold after `n` turns: the merge of its last writer, or what it held at the start. */
  ghost function Due(ds: seq<Volume>, os: seq<Volume>, vals: seq<VolumeValue>, n: nat, k: nat, kind: Kind): VolumeValue
    requires |vals| == |ds| + |os| && n <= |ds| && k < |vals|
  {
    var w := Writer(ds, os, n, (ds + os)[k], kind);
    Part(if w < 0 then vals[k] else Overlaid(vals[w], Current(ds, vals)), kind)
  }

  /** The values fit the pointers, sharing leaves the overrides alone, and sharers agree. */
  ghost predicate Agreeable(ds: seq<Volume>, os: seq<Volume>, vals: seq<VolumeValue>) {
    && |vals| == |ds| + |os| && Fits(ds + os, vals) && AllItemsWellKeyed(vals)
    && OverridesStill(ds, os) && SharersAgree(ds, os, vals)
  }

  /** A value merged with one that has the same sources keeps them. */
  lemma SameParts(x: VolumeValue, o: VolumeValue, kind: Kind)
    requires ItemsWellKeyed(x) && x.emptyDir == o.emptyDir && x.secret == o.secret && x.configMap == o.configMap
    ensures Part(MergeVolume(x, o), kind) == Part(x, kind)
    ensures SameKind(x, o) ==> MergeVolume(x, o) == x
  {
    hide MergeFiles;
    if x.secret.Some? { FilesSelf(x.secret.value); }
    if x.configMap.Some? { FilesSelf(x.configMap.value); }
  }

  lemma SameSources(ds: seq<Volume>, os: seq<Volume>, vals: seq<VolumeValue>, i: nat)
    requires |vals| == |ds| + |os| && Fits(ds + os, vals) && i < |ds|
        && MergesWithItself(ds[i], IndexBy(os, VolumeName))
    ensures ds[i].name in Current(ds, vals)
    ensures var o := Current(ds, vals)[ds[i].name];
            vals[i].emptyDir == o.emptyDir && vals[i].secret == o.secret && vals[i].configMap == o.configMap
  {
    hide IndexBy;
    OverrideNames(ds, os, vals);
    var j := LastOverride(os, vals[|ds|..], ds[i].name);
    var all := ds + os;
    assert all[i] == ds[i] && all[|ds| + j] == os[j] && vals[|ds|..][j] == vals[|ds| + j];
    assert Shape(all[i], vals[i]) && Shape(all[|ds| + j], vals[|ds| + j]);
    assert SameObject(ds[i], os[j], EmptyDirKind) ==> Part(vals[i], EmptyDirKind) == Part(vals[|ds| + j], EmptyDirKind);
    assert SameObject(ds[i], os[j], SecretKind) ==> Part(vals[i], SecretKind) == Part(vals[|ds| + j], SecretKind);
    assert SameObject(ds[i], os[j], ConfigMapKind) ==>
        Part(vals[i], ConfigMapKind) == Part(vals[|ds| + j], ConfigMapKind);
  }

  lemma OverrideNames(ds: seq<Volume>, os: seq<Volume>, vals: seq<VolumeValue>)
    requires |vals| == |ds| + |os| && Fits(ds + os, vals)
    ensures forall j | 0 <= j < |os| :: vals[|ds|..][j].name == os[j].name
  {
    forall j | 0 <= j < |os| ensures vals[|ds|..][j].name == os[j].name {
      assert Shape((ds + os)[|ds| + j], vals[|ds| + j]);
    }
  }

  /** Merged with itself, a default keeps its sources. */
  lemma SelfKeepsParts(ds: seq<Volume>, os: seq<Volume>, vals: seq<VolumeValue>, i: nat, kind: Kind)
    requires |vals| == |ds| + |os| && Fits(ds + os, vals) && AllItemsWellKeyed(vals)
    requires i < |ds| && MergesWithItself(ds[i], IndexBy(os, VolumeName))
    ensures Part(Overlaid(vals[i], Current(ds, vals)), kind) == Part(vals[i], kind)
    ensures LeftBehind(vals[i], Current(ds, vals)) == vals[i]
  {
    hide IndexBy, MergeVolume, SameKind, Part;
    SameSources(ds, os, vals, i);
    assert vals[i].name == ds[i].name by { assert Shape((ds + os)[i], vals[i]); }
    SameParts(vals[i], Current(ds, vals)[ds[i].name], kind);
  }

  /** An override in use holds what it held, as long as every object holds what is due. */
  lemma StillDue(ds: seq<Volume>, os: seq<Volume>, vals: seq<VolumeValue>, n: nat, j: nat, kind: Kind)
    requires |vals| == |ds| + |os| && n <= |ds| && Fits(ds + os, vals) && AllItemsWellKeyed(vals)
    requires j < |os|
    requires forall i | 0 <= i < |ds| :: MergesWithItself(ds[i], IndexBy(os, VolumeName)) || Apart(ds[i], os[j])
    ensures Due(ds, os, vals, n, |ds| + j, kind) == Part(vals[|ds| + j], kind)
  {
    hide IndexBy, Overlaid, Part;
    var all := ds + os;
    var w := Writer(ds, os, n, all[|ds| + j], kind);
    if w >= 0 {
      assert all[|ds| + j] == os[j] && all[w] == ds[w];
      assert SameObject(os[j], ds[w], kind);
      SelfKeepsParts(ds, os, vals, w, kind);
      assert SameObject(all[w], all[|ds| + j], kind);
    }
  }

  lemma UsedApart(ds: seq<Volume>, os: seq<Volume>, j: nat)
    requires OverridesStill(ds, os) && j < |os| && Used(ds, os, j)
    ensures forall i | 0 <= i < |ds| :: MergesWithItself(ds[i], IndexBy(os, VolumeName)) || Apart(ds[i], os[j])
  {
  }

  /** A value half way between `x` and its merge is merged like `x`. */
  lemma HalfWay(x: VolumeValue, y: VolumeValue, overrides: map<string, VolumeValue>)
    requires x.name == y.name && x.other == y.other && ItemsWellKeyed(x)
    requires x.name in overrides ==> SameKind(x, overrides[x.name]) && ItemsWellKeyed(overrides[x.name])
    requires forall kind :: Part(y, kind) == Part(x, kind) || Part(y, kind) == Part(Overlaid(x, overrides), kind)
    ensures LeftBehind(y, overrides) == Overlaid(x, overrides)
  {
    if x.name in overrides {
      var o := overrides[x.name];
      VolumeReapply(x, o);
      MergeLeavesOthers(x, o);
      hide MergeVolume;
      assert Part(y, EmptyDirKind) == Part(x, EmptyDirKind)
          || Part(y, EmptyDirKind) == Part(Overlaid(x, overrides), EmptyDirKind);
      assert Part(y, SecretKind) == Part(x, SecretKind)
          || Part(y, SecretKind) == Part(Overlaid(x, overrides), SecretKind);
      assert Part(y, ConfigMapKind) == Part(x, ConfigMapKind)
          || Part(y, ConfigMapKind) == Part(Overlaid(x, overrides), ConfigMapKind);
      assert y == x || y == MergeVolume(x, o);
    } else {
      PartsTell(x, y);
    }
  }

  /** Where both have a source of one kind, a merge changes one source only. */
  lemma MergeLeavesOthers(x: VolumeValue, o: VolumeValue)
    requires SameKind(x, o)
    ensures var m := MergeVolume(x, o);
      && m.name == x.name && m.other == x.other
      && ((m.secret == x.secret && m.configMap == x.configMap)
          || (m.emptyDir == x.emptyDir && m.configMap == x.configMap)
          || (m.emptyDir == x.emptyDir && m.secret == x.secret))
      && SameKind(m, o)
  {
    hide MergeFiles;
  }

  // ---------------------------------------------------------------- every object holds what is due

  ghost predicate HoldsDue(ds: seq<Volume>, os: seq<Volume>, vals: seq<VolumeValue>, n: nat)
    requires |vals| == |ds| + |os| && n <= |ds|
  {
    forall k, kind | 0 <= k < |vals| :: Part(After(ds, os, vals, n)[k], kind) == Due(ds, os, vals, n, k, kind)
  }

  /** The overrides in use are as they were. */
  lemma UsedStill(ds: seq<Volume>, os: seq<Volume>, vals: seq<VolumeValue>, n: nat, j: nat)
    requires Agreeable(ds, os, vals) && n <= |ds| && HoldsDue(ds, os, vals, n) && j < |os| && Used(ds, os, j)
    ensures After(ds, os, vals, n)[|ds| + j] == vals[|ds| + j]
  {
    hide After, Due, SharersAgree, Part, Used, OverridesStill;
    UsedApart(ds, os, j);
    AfterFits(ds, os, vals, n);
    StillAt(ds, os, vals, n, j);
  }

  lemma StillAt(ds: seq<Volume>, os: seq<Volume>, vals: seq<VolumeValue>, n: nat, j: nat)
    requires |vals| == |ds| + |os| && n <= |ds| && Fits(ds + os, vals) && AllItemsWellKeyed(vals) && j < |os|
    requires HoldsDue(ds, os, vals, n) && Fits(ds + os, After(ds, os, vals, n))
    requires forall i | 0 <= i < |ds| :: MergesWithItself(ds[i], IndexBy(os, VolumeName)) || Apart(ds[i], os[j])
    ensures After(ds, os, vals, n)[|ds| + j] == vals[|ds| + j]
  {
    hide After, Due, Part, MergesWithItself, Apart;
    var now, k := After(ds, os, vals, n), |ds| + j;
    assert Shape((ds + os)[k], now[k]) && Shape((ds + os)[k], vals[k]);
    forall kind ensures Part(now[k], kind) == Part(vals[k], kind) {
      StillDue(ds, os, vals, n, j, kind);
    }
    PartsTell(now[k], vals[k]);
  }

  lemma CurrentStill(ds: seq<Volume>, os: seq<Volume>, vals: seq<VolumeValue>, n: nat)
    requires Agreeable(ds, os, vals) && n <= |ds| && HoldsDue(ds, os, vals, n)
    ensures Current(ds, After(ds, os, vals, n)) == Current(ds, vals)
  {
    hide HoldsDue, After, OverridesStill, SharersAgree;
    AfterFits(ds, os, vals, n);
    forall j | 0 <= j < |os| && IsLast(os, j) ensures After(ds, os, vals, n)[|ds| + j] == vals[|ds| + j] {
      UsedStill(ds, os, vals, n, j);
    }
    CurrentUnchanged(ds, os, vals, After(ds, os, vals, n));
  }

  /** The override of a default, told on pointers and on values. */
  lemma KeepsIff(ds: seq<Volume>, os: seq<Volume>, vals: seq<VolumeValue>, i: nat)
    requires |vals| == |ds| + |os| && Fits(ds + os, vals) && i < |ds|
    ensures ds[i].name == vals[i].name
    ensures var V := Current(ds, vals);
      && (ds[i].name in V <==> ds[i].name in IndexBy(os, VolumeName))
      && (Keeps(ds[i], IndexBy(os, VolumeName)) <==> ds[i].name in V ==> SameKind(vals[i], V[ds[i].name]))
      && (AllItemsWellKeyed(vals) && ds[i].name in V ==> ItemsWellKeyed(V[ds[i].name]))
      && (ds[i].name in V ==> V[ds[i].name].name == ds[i].name)
  {
    hide IndexBy, ItemsWellKeyed;
    var all := ds + os;
    assert all[i] == ds[i] && Shape(all[i], vals[i]);
    OverrideNames(ds, os, vals);
    IndexNames(os, vals[|ds|..]);
    if ds[i].name in IndexBy(os, VolumeName) {
      var j := LastOverride(os, vals[|ds|..], ds[i].name);
      assert all[|ds| + j] == os[j] && Shape(all[|ds| + j], vals[|ds| + j]) && vals[|ds|..][j] == vals[|ds| + j];
    }
  }

  lemma SharersDue(ds: seq<Volume>, os: seq<Volume>, vals: seq<VolumeValue>, n: nat, i: nat, kind: Kind)
    requires |vals| == |ds| + |os| && n <= |ds| && SharersAgree(ds, os, vals)
    requires i < |ds| && Keeps(ds[i], IndexBy(os, VolumeName))
    ensures Due(ds, os, vals, n, i, kind) == Part(vals[i], kind)
         || Due(ds, os, vals, n, i, kind) == Part(Overlaid(vals[i], Current(ds, vals)), kind)
    ensures Writer(ds, os, n, ds[i], kind) >= 0 ==>
      Due(ds, os, vals, n, i, kind) == Part(Overlaid(vals[i], Current(ds, vals)), kind)
  {
    hide Overlaid, Part, Keeps, SameObject;
    assert (ds + os)[i] == ds[i];
  }

  /** What turn `i` writes: the merge of the first value, or, where the override is of another kind, what is there. */
  lemma TurnWrites(ds: seq<Volume>, os: seq<Volume>, vals: seq<VolumeValue>, i: nat)
    requires Agreeable(ds, os, vals) && i < |ds| && HoldsDue(ds, os, vals, i)
    ensures Written(ds, After(ds, os, vals, i), i)
         == if Keeps(ds[i], IndexBy(os, VolumeName)) then Overlaid(vals[i], Current(ds, vals))
            else After(ds, os, vals, i)[i]
  {
    hide After, Due, Part, Overlaid, LeftBehind, Keeps, Current, SameKind, OverridesStill, SharersAgree;
    var now, V := After(ds, os, vals, i), Current(ds, vals);
    CurrentStill(ds, os, vals, i);
    AfterFits(ds, os, vals, i);
    KeepsIff(ds, os, vals, i);
    KeepsIff(ds, os, now, i);
    assert Shape((ds + os)[i], now[i]) && Shape((ds + os)[i], vals[i]);
    if Keeps(ds[i], IndexBy(os, VolumeName)) {
      forall kind ensures Part(now[i], kind) == Part(vals[i], kind)
          || Part(now[i], kind) == Part(Overlaid(vals[i], V), kind) {
        SharersDue(ds, os, vals, i, i, kind);
      }
      HalfWay(vals[i], now[i], V);
    } else {
      NothingLeft(now[i], V);
    }
  }

  lemma NothingLeft(x: VolumeValue, overrides: map<string, VolumeValue>)
    requires x.name in overrides && !SameKind(x, overrides[x.name])
    ensures LeftBehind(x, overrides) == x
  {
  }

  lemma NextPart(ds: seq<Volume>, os: seq<Volume>, vals: seq<VolumeValue>, n: nat, k: nat, kind: Kind)
    requires |vals| == |ds| + |os| && 0 < n <= |ds| && k < |vals|
    ensures var now := After(ds, os, vals, n - 1);
      Part(After(ds, os, vals, n)[k], kind)
        == Part(if SameObject((ds + os)[k], ds[n - 1], kind) then Written(ds, now, n - 1) else now[k], kind)
  {
    hide Part, Written, SameObject, Spread;
    var all, now, d := ds + os, After(ds, os, vals, n - 1), ds[n - 1];
    SpreadPart(all[k], now[k], d, Written(ds, now, n - 1), kind);
    assert After(ds, os, vals, n) == Turn(ds, os, now, n - 1);
  }

  lemma WriterNext(ds: seq<Volume>, os: seq<Volume>, vals: seq<VolumeValue>, n: nat, k: nat, kind: Kind)
    requires |vals| == |ds| + |os| && 0 < n <= |ds| && k < |vals|
    ensures Due(ds, os, vals, n, k, kind)
         == if Keeps(ds[n - 1], IndexBy(os, VolumeName)) && SameObject((ds + os)[k], ds[n - 1], kind)
            then Part(Overlaid(vals[n - 1], Current(ds, vals)), kind) else Due(ds, os, vals, n - 1, k, kind)
  {
    hide Part, Overlaid, Keeps, Current, SameObject, IndexBy;
  }

  lemma NextDue(ds: seq<Volume>, os: seq<Volume>, vals: seq<VolumeValue>, n: nat, k: nat, kind: Kind)
    requires Agreeable(ds, os, vals) && 0 < n <= |ds| && HoldsDue(ds, os, vals, n - 1) && k < |vals|
    ensures Part(After(ds, os, vals, n)[k], kind) == Due(ds, os, vals, n, k, kind)
  {
    hide Part, Overlaid, Written, Keeps, Current, OverridesStill, SharersAgree, SameObject, IndexBy, After, Due;
    var all, d := ds + os, ds[n - 1];
    assert all[n - 1] == d;
    TurnWrites(ds, os, vals, n - 1);
    NextPart(ds, os, vals, n, k, kind);
    WriterNext(ds, os, vals, n, k, kind);
    if SameObject(all[k], d, kind) && !Keeps(d, IndexBy(os, VolumeName)) {
      SameDue(ds, os, vals, n - 1, k, n - 1, kind);
    }
  }

  lemma SameDue(ds: seq<Volume>, os: seq<Volume>, vals: seq<VolumeValue>, n: nat, k: nat, l: nat, kind: Kind)
    requires |vals| == |ds| + |os| && Fits(ds + os, vals) && n <= |ds| && k < |vals| && l < |vals|
    requires SameObject((ds + os)[k], (ds + os)[l], kind)
    ensures Due(ds, os, vals, n, k, kind) == Due(ds, os, vals, n, l, kind)
  {
    hide SameObject, Part, Overlaid;
    WriterOfSharers(ds, os, n, (ds + os)[k], (ds + os)[l], kind);
  }

  lemma DueAtFirst(ds: seq<Volume>, os: seq<Volume>, vals: seq<VolumeValue>)
    requires |vals| == |ds| + |os|
    ensures HoldsDue(ds, os, vals, 0)
  {
  }

  /** When sharers agree, every object holds after every turn what its last writer is due. */
  lemma {:induction false} AllDue(ds: seq<Volume>, os: seq<Volume>, vals: seq<VolumeValue>, n: nat)
    requires Agreeable(ds, os, vals) && n <= |ds|
    ensures HoldsDue(ds, os, vals, n)
  {
    hide Part, Fits, OverridesStill, SharersAgree, Due, After;
    if n == 0 {
      DueAtFirst(ds, os, vals);
    } else {
      AllDue(ds, os, vals, n - 1);
      forall k, kind | 0 <= k < |vals|
        ensures Part(After(ds, os, vals, n)[k], kind) == Due(ds, os, vals, n, k, kind)
      {
        NextDue(ds, os, vals, n, k, kind);
      }
    }
  }

  // ---------------------------------------------------------------- when the result is the merge of the values

  lemma OverlaidParts(ds: seq<Volume>, os: seq<Volume>, vals: seq<VolumeValue>, i: nat, kind: Kind)
    requires |vals| == |ds| + |os| && Fits(ds + os, vals) && i < |ds| && Keeps(ds[i], IndexBy(os, VolumeName))
    ensures !SameObject(ds[i], ds[i], kind) ==> Part(Overlaid(vals[i], Current(ds, vals)), kind) == Part(vals[i], kind)
    ensures Overlaid(vals[i], Current(ds, vals)).name == vals[i].name
    ensures Overlaid(vals[i], Current(ds, vals)).other == vals[i].other
  {
    hide MergeFiles, Current, IndexBy;
    KeepsIff(ds, os, vals, i);
    assert (ds + os)[i] == ds[i] && Shape((ds + os)[i], vals[i]);
  }

  lemma KeptIsMerged(ds: seq<Volume>, os: seq<Volume>, vals: seq<VolumeValue>, i: nat)
    requires Agreeable(ds, os, vals) && i < |ds| && Keeps(ds[i], IndexBy(os, VolumeName))
    requires HoldsDue(ds, os, vals, |ds|)
    ensures After(ds, os, vals, |ds|)[i] == Overlaid(vals[i], Current(ds, vals))
  {
    hide After, Part, Overlaid, Keeps, Current, OverridesStill, SharersAgree, IndexBy, Due;
    var final, merged := After(ds, os, vals, |ds|), Overlaid(vals[i], Current(ds, vals));
    AfterFits(ds, os, vals, |ds|);
    assert (ds + os)[i] == ds[i];
    assert Shape((ds + os)[i], final[i]) && Shape((ds + os)[i], vals[i]);
    OverlaidParts(ds, os, vals, i, EmptyDirKind);
    forall kind ensures Part(final[i], kind) == Part(merged, kind) {
      OverlaidParts(ds, os, vals, i, kind);
      SharersDue(ds, os, vals, |ds|, i, kind);
      assert Writer(ds, os, |ds|, ds[i], kind) < 0 ==> !SameObject(ds[i], ds[i], kind);
    }
    PartsTell(final[i], merged);
  }

  lemma ShownIsMerged(ds: seq<Volume>, os: seq<Volume>, vals: seq<VolumeValue>, i: nat)
    requires Agreeable(ds, os, vals) && i < |ds|
    ensures Shown(ds, os, After(ds, os, vals, |ds|), i) == Overlaid(vals[i], Current(ds, vals))
  {
    hide After, OverridesStill, SharersAgree, IndexBy, Due, HoldsDue, MergeFiles;
    AllDue(ds, os, vals, |ds|);
    CurrentStill(ds, os, vals, |ds|);
    KeepsIff(ds, os, vals, i);
    if Keeps(ds[i], IndexBy(os, VolumeName)) {
      KeptIsMerged(ds, os, vals, i);
    }
  }

  /** If every merged default shows its merge, sharers agree: they show one object. */
  lemma ShownAgree(ds: seq<Volume>, os: seq<Volume>, vals: seq<VolumeValue>)
    requires |vals| == |ds| + |os| && Fits(ds + os, vals)
    requires forall i | 0 <= i < |ds| ::
        Shown(ds, os, After(ds, os, vals, |ds|), i) == Overlaid(vals[i], Current(ds, vals))
    ensures SharersAgree(ds, os, vals)
  {
    hide After, IndexBy, Current, Overlaid, Part, SameObject, Keeps;
    var all, final := ds + os, After(ds, os, vals, |ds|);
    AfterFits(ds, os, vals, |ds|);
    forall i, j, kind | 0 <= i < |ds| && 0 <= j < |ds| && Keeps(ds[i], IndexBy(os, VolumeName))
                        && Keeps(ds[j], IndexBy(os, VolumeName)) && SameObject(ds[i], ds[j], kind)
      ensures Part(Overlaid(vals[i], Current(ds, vals)), kind) == Part(Overlaid(vals[j], Current(ds, vals)), kind)
    {
      assert all[i] == ds[i] && all[j] == ds[j];
      assert Part(final[i], kind) == Part(final[j], kind);
      assert Shown(ds, os, final, i) == final[i] && Shown(ds, os, final, j) == final[j];
    }
  }

  /** Merging in place is the merge of the values exactly when sharers agree, if sharing leaves the overrides alone. */
  lemma InPlaceIff(ds: seq<Volume>, os: seq<Volume>, vals: seq<VolumeValue>)
    requires |vals| == |ds| + |os| && Fits(ds + os, vals) && AllItemsWellKeyed(vals) && OverridesStill(ds, os)
    ensures (forall i | 0 <= i < |ds| ::
               Shown(ds, os, After(ds, os, vals, |ds|), i) == Overlaid(vals[i], Current(ds, vals)))
        <==> SharersAgree(ds, os, vals)
  {
    hide Shown, After, Overlaid, Current, SharersAgree, Fits, OverridesStill, AllItemsWellKeyed;
    if SharersAgree(ds, os, vals) {
      forall i | 0 <= i < |ds|
        ensures Shown(ds, os, After(ds, os, vals, |ds|), i) == Overlaid(vals[i], Current(ds, vals))
      {
        ShownIsMerged(ds, os, vals, i);
      }
    } else if forall i | 0 <= i < |ds| ::
        Shown(ds, os, After(ds, os, vals, |ds|), i) == Overlaid(vals[i], Current(ds, vals)) {
      ShownAgree(ds, os, vals);
    }
  }

  // ---------------------------------------------------------------- the whole list

  ghost function AllShown(ds: seq<Volume>, os: seq<Volume>, vals: seq<VolumeValue>): (r: seq<VolumeValue>)
    requires |vals| == |ds| + |os|
    ensures |r| == |ds| && forall i | 0 <= i < |r| :: r[i] == Shown(ds, os, vals, i)
  {
    seq(|ds|, i requires 0 <= i < |ds| => Shown(ds, os, vals, i))
  }

  /** What the merged list shows once the values are these: merged defaults and new overrides, sorted. */
  ghost function ListShown(ds: seq<Volume>, os: seq<Volume>, vals: seq<VolumeValue>): seq<VolumeValue>
    requires |vals| == |ds| + |os|
  {
    SliceStable(AllShown(ds, os, vals) + NewOnes(vals[|ds|..], ValueName, IndexBy(ds, VolumeName).Keys), ValueName)
  }

  lemma {:induction false} NewOnesAlike(x: seq<VolumeValue>, y: seq<VolumeValue>, known: set<string>)
    requires |x| == |y| && forall j | 0 <= j < |x| :: x[j].name == y[j].name
    ensures var m, n := NewOnes(x, ValueName, known), NewOnes(y, ValueName, known);
      && |m| == |n| && (forall j | 0 <= j < |m| :: m[j].name == n[j].name)
      && ((forall j | 0 <= j < |x| && x[j].name !in known :: x[j] == y[j]) ==> m == n)
  {
    if x != [] {
      var front, front' := x[..|x| - 1], y[..|y| - 1];
      NewOnesAlike(front, front', known);
      assert forall j | 0 <= j < |front| :: front[j] == x[j] && front'[j] == y[j];
    }
  }

  lemma ShownName(ds: seq<Volume>, os: seq<Volume>, vals: seq<VolumeValue>, i: nat)
    requires |vals| == |ds| + |os| && Fits(ds + os, vals) && i < |ds|
    ensures Shown(ds, os, vals, i).name == ds[i].name
    ensures Overlaid(vals[i], Current(ds, vals)).name == ds[i].name
  {
    hide MergeFiles;
    KeepsIff(ds, os, vals, i);
  }

  lemma NewOnesStill(ds: seq<Volume>, os: seq<Volume>, vals: seq<VolumeValue>)
    requires Agreeable(ds, os, vals)
    ensures NewOnes(After(ds, os, vals, |ds|)[|ds|..], ValueName, IndexBy(ds, VolumeName).Keys)
         == NewOnes(vals[|ds|..], ValueName, IndexBy(ds, VolumeName).Keys)
  {
    hide After, NewOnes, HoldsDue, OverridesStill, SharersAgree;
    var was, now := vals[|ds|..], After(ds, os, vals, |ds|)[|ds|..];
    AfterFits(ds, os, vals, |ds|);
    OverrideNames(ds, os, vals);
    OverrideNames(ds, os, After(ds, os, vals, |ds|));
    AllDue(ds, os, vals, |ds|);
    forall j | 0 <= j < |os| && was[j].name !in IndexBy(ds, VolumeName).Keys ensures now[j] == was[j] {
      UsedStill(ds, os, vals, |ds|, j);
    }
    NewOnesAlike(was, now, IndexBy(ds, VolumeName).Keys);
  }

  lemma SameFront<T>(a: seq<T>, b: seq<T>, m: seq<T>, n: seq<T>)
    requires |a| == |b| && a + m == b + n
    ensures a == b
  {
    assert a == (a + m)[..|a|] && b == (b + n)[..|b|];
  }

  /** Unsorted, both lists have the same names in the same places. */
  lemma SameNames(ds: seq<Volume>, os: seq<Volume>, vals: seq<VolumeValue>, final: seq<VolumeValue>)
    requires |vals| == |final| == |ds| + |os| && Fits(ds + os, vals) && Fits(ds + os, final)
    ensures var known := IndexBy(ds, VolumeName).Keys;
            var a, b := AllShown(ds, os, final), OverlaidAll(vals[..|ds|], Current(ds, vals));
            var m, n := NewOnes(final[|ds|..], ValueName, known), NewOnes(vals[|ds|..], ValueName, known);
      |a + m| == |b + n| && forall i | 0 <= i < |a + m| :: ValueName((a + m)[i]) == ValueName((b + n)[i])
  {
    hide Overlaid, Shown, NewOnes, IndexBy, Fits, Current;
    var known := IndexBy(ds, VolumeName).Keys;
    var a, b := AllShown(ds, os, final), OverlaidAll(vals[..|ds|], Current(ds, vals));
    var m, n := NewOnes(final[|ds|..], ValueName, known), NewOnes(vals[|ds|..], ValueName, known);
    OverrideNames(ds, os, vals);
    OverrideNames(ds, os, final);
    NewOnesAlike(final[|ds|..], vals[|ds|..], known);
    forall i | 0 <= i < |a + m| ensures ValueName((a + m)[i]) == ValueName((b + n)[i]) {
      if i < |ds| {
        ShownName(ds, os, vals, i);
        ShownName(ds, os, final, i);
      }
    }
  }

  lemma AllShownIff(ds: seq<Volume>, os: seq<Volume>, vals: seq<VolumeValue>)
    requires |vals| == |ds| + |os| && Fits(ds + os, vals) && AllItemsWellKeyed(vals) && OverridesStill(ds, os)
    ensures AllShown(ds, os, After(ds, os, vals, |ds|)) == OverlaidAll(vals[..|ds|], Current(ds, vals))
        <==> SharersAgree(ds, os, vals)
  {
    hide After, Overlaid, Shown, SharersAgree, OverridesStill, AllItemsWellKeyed, Fits, Current;
    InPlaceIff(ds, os, vals);
    var a, b := AllShown(ds, os, After(ds, os, vals, |ds|)), OverlaidAll(vals[..|ds|], Current(ds, vals));
    if a == b {
      forall i | 0 <= i < |ds|
          ensures Shown(ds, os, After(ds, os, vals, |ds|), i) == Overlaid(vals[i], Current(ds, vals)) {
        assert a[i] == b[i];
      }
    }
  }

  /** The same of whole lists: what the result shows is the merge of the values exactly when sharers agree. */
  lemma ListInPlaceIff(ds: seq<Volume>, os: seq<Volume>, vals: seq<VolumeValue>)
    requires |vals| == |ds| + |os| && Fits(ds + os, vals) && AllItemsWellKeyed(vals) && OverridesStill(ds, os)
    ensures ListShown(ds, os, After(ds, os, vals, |ds|)) == MergeVolumes(vals[..|ds|], vals[|ds|..])
        <==> SharersAgree(ds, os, vals)
  {
    hide After, Overlaid, Shown, SharersAgree, OverridesStill, NewOnes, SliceStable, AllItemsWellKeyed, IndexBy, Fits;
    hide AllShown, OverlaidAll;
    var final, known := After(ds, os, vals, |ds|), IndexBy(ds, VolumeName).Keys;
    AfterFits(ds, os, vals, |ds|);
    DefaultNames(ds, os, vals);
    SameNames(ds, os, vals, final);
    AllShownIff(ds, os, vals);
    var a, b := AllShown(ds, os, final), OverlaidAll(vals[..|ds|], Current(ds, vals));
    var m, n := NewOnes(final[|ds|..], ValueName, known), NewOnes(vals[|ds|..], ValueName, known);
    SortInjective(a + m, b + n, ValueName);
    if SharersAgree(ds, os, vals) {
      NewOnesStill(ds, os, vals);
    }
    if a + m == b + n {
      SameFront(a, b, m, n);
    }
  }

  lemma DefaultNames(ds: seq<Volume>, os: seq<Volume>, vals: seq<VolumeValue>)
    requires |vals| == |ds| + |os| && Fits(ds + os, vals)
    ensures IndexBy(vals[..|ds|], ValueName).Keys == IndexBy(ds, VolumeName).Keys
  {
    forall j | 0 <= j < |ds| ensures vals[..|ds|][j].name == ds[j].name {
      assert Shape((ds + os)[j], vals[j]);
    }
    IndexNames(ds, vals[..|ds|]);
  }

  // ---------------------------------------------------------------- sharing that does no harm

  /** Defaults that share only what they write back share safely. */
  lemma SafeAgrees(ds: seq<Volume>, os: seq<Volume>, vals: seq<VolumeValue>)
    requires |vals| == |ds| + |os| && Fits(ds + os, vals) && AllItemsWellKeyed(vals) && SafelyShared(ds, os)
    ensures OverridesStill(ds, os) && SharersAgree(ds, os, vals)
  {
    hide IndexBy, Overlaid, Part, Keeps, Current;
    var O, V := IndexBy(os, VolumeName), Current(ds, vals);
    forall i, j, kind | 0 <= i < |ds| && 0 <= j < |ds| && SameObject(ds[i], ds[j], kind)
      ensures Part(Overlaid(vals[i], V), kind) == Part(Overlaid(vals[j], V), kind)
    {
      if i != j {
        assert !Apart(ds[i], ds[j]) && !Apart(ds[j], ds[i]);
        assert MergesWithItself(ds[i], O) && MergesWithItself(ds[j], O);
        SelfKeepsParts(ds, os, vals, i, kind);
        SelfKeepsParts(ds, os, vals, j, kind);
        assert (ds + os)[i] == ds[i] && (ds + os)[j] == ds[j];
      }
    }
  }

  /** Then every override, in use or not, is as it was. */
  lemma SafeOverrideStill(ds: seq<Volume>, os: seq<Volume>, vals: seq<VolumeValue>, j: nat)
    requires |vals| == |ds| + |os| && Fits(ds + os, vals) && AllItemsWellKeyed(vals) && SafelyShared(ds, os) && j < |os|
    ensures After(ds, os, vals, |ds|)[|ds| + j] == vals[|ds| + j]
  {
    hide After, IndexBy, HoldsDue, SharersAgree, Fits;
    SafeAgrees(ds, os, vals);
    AllDue(ds, os, vals, |ds|);
    AfterFits(ds, os, vals, |ds|);
    StillAt(ds, os, vals, |ds|, j);
  }

  /** And every default is left with the merge, or, where the override is of another kind, as it was. */
  lemma SafeDefaultLeft(ds: seq<Volume>, os: seq<Volume>, vals: seq<VolumeValue>, i: nat)
    requires |vals| == |ds| + |os| && Fits(ds + os, vals) && AllItemsWellKeyed(vals) && SafelyShared(ds, os) && i < |ds|
    ensures After(ds, os, vals, |ds|)[i] == LeftBehind(vals[i], Current(ds, vals))
  {
    hide After, IndexBy, HoldsDue, SharersAgree, Current, MergeVolume, OverridesStill;
    SafeAgrees(ds, os, vals);
    AllDue(ds, os, vals, |ds|);
    KeepsIff(ds, os, vals, i);
    if Keeps(ds[i], IndexBy(os, VolumeName)) {
      KeptIsMerged(ds, os, vals, i);
    } else {
      UnkeptIsLeft(ds, os, vals, i);
    }
  }

  lemma UnkeptIsLeft(ds: seq<Volume>, os: seq<Volume>, vals: seq<VolumeValue>, i: nat)
    requires |vals| == |ds| + |os| && Fits(ds + os, vals) && i < |ds| && HoldsDue(ds, os, vals, |ds|)
    requires SafelyShared(ds, os) && !Keeps(ds[i], IndexBy(os, VolumeName))
    ensures After(ds, os, vals, |ds|)[i] == vals[i]
  {
    hide After, IndexBy, Overlaid, Current, Part;
    var now, all := After(ds, os, vals, |ds|), ds + os;
    AfterFits(ds, os, vals, |ds|);
    assert all[i] == ds[i] && Shape(all[i], now[i]) && Shape(all[i], vals[i]);
    forall kind ensures Part(now[i], kind) == Part(vals[i], kind) {
      var w := Writer(ds, os, |ds|, all[i], kind);
      assert Part(now[i], kind) == Due(ds, os, vals, |ds|, i, kind);
      if w >= 0 {
        assert SameObject(ds[i], ds[w], kind);
        OnlyKeptShare(ds, os, i, w, kind);
      }
    }
    PartsTell(now[i], vals[i]);
  }

  /** A default that shares an object safely is merged with itself, so it keeps its pointers. */
  lemma OnlyKeptShare(ds: seq<Volume>, os: seq<Volume>, i: nat, w: nat, kind: Kind)
    requires SafelyShared(ds, os) && i < |ds| && w < |ds| && i != w && SameObject(ds[i], ds[w], kind)
    ensures Keeps(ds[i], IndexBy(os, VolumeName))
  {
    hide IndexBy;
    assert !Apart(ds[i], ds[w]);
  }
}
