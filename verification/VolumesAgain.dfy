/** Merging a merged list of volumes with the same overrides again, when new names may come more than once. */
module VolumesAgain {
  import opened Text
  import opened Sorting
  import opened KeyedMerge
  import opened PodModel
  import opened VolumeMerge
  import opened VolumeLaws
  import opened VolumeSharing
  import opened VolumesInPlace

  /** No two overrides share an object. */
  ghost predicate OverridesApart(os: seq<Volume>) {
    forall i, j | 0 <= i < |os| && 0 <= j < |os| && i != j :: Apart(os[i], os[j])
  }

  /** An override whose name is new and comes again later. */
  ghost predicate Superseded(ds: seq<Volume>, os: seq<Volume>, j: nat)
    requires j < |os|
  {
    os[j].name !in IndexBy(ds, VolumeName) && !IsLast(os, j)
  }

  /** Where a merged volume comes from: its own override, a default that shares nothing, or a superseded override. */
  ghost predicate Descends(x: Volume, ds: seq<Volume>, os: seq<Volume>) {
    || MergesWithItself(x, IndexBy(os, VolumeName))
    || (exists i :: 0 <= i < |ds| && x == ds[i] && Alone(ds, os, i))
    || (exists j :: 0 <= j < |os| && x == os[j] && Superseded(ds, os, j))
  }

  /** Every volume descends so, and every override name is there. */
  ghost predicate Descendants(vs: seq<Volume>, ds: seq<Volume>, os: seq<Volume>) {
    && (forall x | x in vs :: Descends(x, ds, os))
    && (forall j | 0 <= j < |os| :: os[j].name in IndexBy(vs, VolumeName))
  }

  lemma LastIsIndexed(os: seq<Volume>, j: nat)
    requires j < |os|
    ensures os[j].name in IndexBy(os, VolumeName)
    ensures IsLast(os, j) ==> IndexBy(os, VolumeName)[os[j].name] == os[j]
  {
    IndexSound(os, VolumeName);
    assert VolumeName(os[j]) in IndexBy(os, VolumeName);
    var l := LastEntry(os, VolumeName, os[j].name);
  }

  lemma StemDescends(x: Volume, ds: seq<Volume>, os: seq<Volume>)
    requires Descends(x, ds, os)
    ensures Descends(Stem(x, IndexBy(os, VolumeName)), ds, os)
  {
    hide IndexBy, Alone, Superseded;
  }

  lemma {:induction false} NewOnesHave(os: seq<Volume>, known: set<string>, j: nat)
    requires j < |os| && os[j].name !in known
    ensures os[j] in NewOnes(os, VolumeName, known)
  {
    if j < |os| - 1 {
      NewOnesHave(os[..|os| - 1], known, j);
    }
  }

  lemma NamesKept(vs: seq<Volume>, os: seq<Volume>, name: string)
    requires name in IndexBy(vs, VolumeName) || exists j :: 0 <= j < |os| && os[j].name == name
    ensures name in IndexBy(MergedPointers(vs, os), VolumeName)
  {
    hide NewOnes, SliceStable;
    var first, known := Stems(vs, IndexBy(os, VolumeName)), IndexBy(vs, VolumeName).Keys;
    IndexSound(MergedPointers(vs, os), VolumeName);
    if name in known {
      var i := LastEntry(vs, VolumeName, name);
      PointerMember(vs, os, first[i]);
      assert first[i] in MergedPointers(vs, os) && VolumeName(first[i]) == name;
    } else {
      var j :| 0 <= j < |os| && os[j].name == name;
      NewOnesHave(os, known, j);
      PointerMember(vs, os, os[j]);
      assert os[j] in MergedPointers(vs, os) && VolumeName(os[j]) == name;
    }
  }

  /** The first merge of lists that share safely. */
  lemma FirstDescends(ds: seq<Volume>, os: seq<Volume>)
    requires SafelyShared(ds, os)
    ensures Descendants(MergedPointers(ds, os), ds, os)
  {
    hide IndexBy, Alone, NewOnes, SliceStable, MergedPointers;
    var known := IndexBy(ds, VolumeName).Keys;
    var first, news := Stems(ds, IndexBy(os, VolumeName)), NewOnes(os, VolumeName, known);
    NewOnesFrom(os, known);
    forall x | x in MergedPointers(ds, os) ensures Descends(x, ds, os) {
      PointerMember(ds, os, x);
      if x in first {
        var i :| 0 <= i < |ds| && x == Stem(ds[i], IndexBy(os, VolumeName));
        assert Descends(ds[i], ds, os);
        StemDescends(ds[i], ds, os);
      } else {
        assert x in news;
        var j :| 0 <= j < |os| && os[j] == x;
        LastIsIndexed(os, j);
        assert Superseded(ds, os, j) || MergesWithItself(x, IndexBy(os, VolumeName));
      }
    }
    forall j | 0 <= j < |os| ensures os[j].name in IndexBy(MergedPointers(ds, os), VolumeName) {
      NamesKept(ds, os, os[j].name);
    }
  }

  lemma PointerMember(ds: seq<Volume>, os: seq<Volume>, x: Volume)
    ensures x in MergedPointers(ds, os) <==>
      x in Stems(ds, IndexBy(os, VolumeName)) || x in NewOnes(os, VolumeName, IndexBy(ds, VolumeName).Keys)
  {
    var all := Stems(ds, IndexBy(os, VolumeName)) + NewOnes(os, VolumeName, IndexBy(ds, VolumeName).Keys);
    SliceStableSorts(all, VolumeName);
    assert x in multiset(SliceStable(all, VolumeName)) <==> x in multiset(all);
  }

  lemma {:induction false} NothingNew(os: seq<Volume>, known: set<string>)
    requires forall j | 0 <= j < |os| :: os[j].name in known
    ensures NewOnes(os, VolumeName, known) == []
  {
    if os != [] {
      NothingNew(os[..|os| - 1], known);
    }
  }

  /** Every later merge. */
  lemma NextDescends(vs: seq<Volume>, ds: seq<Volume>, os: seq<Volume>)
    requires Descendants(vs, ds, os)
    ensures Descendants(MergedPointers(vs, os), ds, os)
  {
    hide IndexBy, Descends, NewOnes, SliceStable, MergedPointers, Stem;
    NothingNew(os, IndexBy(vs, VolumeName).Keys);
    forall x | x in MergedPointers(vs, os) ensures Descends(x, ds, os) {
      PointerMember(vs, os, x);
      assert x in Stems(vs, IndexBy(os, VolumeName));
      var i :| 0 <= i < |vs| && x == Stem(vs[i], IndexBy(os, VolumeName));
      StemDescends(vs[i], ds, os);
    }
    forall j | 0 <= j < |os| ensures os[j].name in IndexBy(MergedPointers(vs, os), VolumeName) {
      NamesKept(vs, os, os[j].name);
    }
  }

  // ---------------------------------------------------------------- descendants share without harm

  lemma ItsOverride(x: Volume, os: seq<Volume>) returns (l: nat)
    requires MergesWithItself(x, IndexBy(os, VolumeName))
    ensures l < |os| && os[l].name == x.name && IsLast(os, l) && SamePointers(x, os[l])
  {
    l := LastEntry(os, VolumeName, x.name);
  }

  /** Two different descendants share an object only if both are merged with themselves. */
  lemma OnlySelfShare(x: Volume, y: Volume, ds: seq<Volume>, os: seq<Volume>, kind: Kind)
    requires OverridesApart(os) && Descends(x, ds, os) && Descends(y, ds, os) && SameObject(x, y, kind) && x != y
    ensures MergesWithItself(x, IndexBy(os, VolumeName)) && MergesWithItself(y, IndexBy(os, VolumeName))
  {
    hide IndexBy;
    var O := IndexBy(os, VolumeName);
    assert !Apart(x, y) && !Apart(y, x);
    if !MergesWithItself(x, O) {
      NotSelfIsApart(x, y, ds, os);
    }
    if !MergesWithItself(y, O) {
      NotSelfIsApart(y, x, ds, os);
    }
  }

  lemma NotSelfIsApart(x: Volume, y: Volume, ds: seq<Volume>, os: seq<Volume>)
    requires OverridesApart(os) && Descends(x, ds, os) && Descends(y, ds, os) && x != y
    requires !MergesWithItself(x, IndexBy(os, VolumeName))
    ensures Apart(x, y) && Apart(y, x)
  {
    hide IndexBy;
    if MergesWithItself(y, IndexBy(os, VolumeName)) {
      var l := ItsOverride(y, os);
      if j :| 0 <= j < |os| && x == os[j] && Superseded(ds, os, j) {
        assert j != l;
      }
    }
  }

  lemma DescendantsStill(vs: seq<Volume>, ds: seq<Volume>, os: seq<Volume>)
    requires OverridesApart(os) && Descendants(vs, ds, os)
    ensures OverridesStill(vs, os)
  {
    hide IndexBy;
    forall i | 0 <= i < |vs|
      ensures MergesWithItself(vs[i], IndexBy(os, VolumeName))
           || forall j | 0 <= j < |os| && Used(vs, os, j) :: Apart(vs[i], os[j])
    {
      assert Descends(vs[i], ds, os);
    }
  }

  /** One volume has one value. */
  lemma SameVolume(all: seq<Volume>, vals: seq<VolumeValue>, i: nat, j: nat)
    requires Fits(all, vals) && i < |all| && j < |all| && all[i] == all[j]
    ensures vals[i] == vals[j]
  {
    assert Shape(all[i], vals[i]) && Shape(all[j], vals[j]);
    forall kind ensures Part(vals[i], kind) == Part(vals[j], kind) {
      assert SameObject(all[i], all[j], kind) ==> Part(vals[i], kind) == Part(vals[j], kind);
    }
    PartsTell(vals[i], vals[j]);
  }

  lemma DescendantsAgree(vs: seq<Volume>, ds: seq<Volume>, os: seq<Volume>, vals: seq<VolumeValue>)
    requires OverridesApart(os) && Descendants(vs, ds, os)
    requires |vals| == |vs| + |os| && Fits(vs + os, vals) && AllItemsWellKeyed(vals)
    ensures Agreeable(vs, os, vals)
  {
    hide IndexBy, Overlaid, Part, Keeps, Current, Descends, OverridesApart, OverridesStill, MergesWithItself,
        SameObject;
    DescendantsStill(vs, ds, os);
    var V := Current(vs, vals);
    forall i, j, kind | 0 <= i < |vs| && 0 <= j < |vs| && SameObject(vs[i], vs[j], kind)
      ensures Part(Overlaid(vals[i], V), kind) == Part(Overlaid(vals[j], V), kind)
    {
      assert (vs + os)[i] == vs[i] && (vs + os)[j] == vs[j];
      if vs[i] == vs[j] {
        SameVolume(vs + os, vals, i, j);
      } else {
        OnlySelfShare(vs[i], vs[j], ds, os, kind);
        SelfKeepsParts(vs, os, vals, i, kind);
        SelfKeepsParts(vs, os, vals, j, kind);
      }
    }
  }

  // ---------------------------------------------------------------- which overrides are written

  /** A superseded override is left with what the last of its name puts over it; every other one is as it was. */
  ghost function OverrideLeft(ds: seq<Volume>, os: seq<Volume>, values: seq<VolumeValue>, j: nat): VolumeValue
    requires |values| == |os| && j < |os|
  {
    if Superseded(ds, os, j) then LeftBehind(values[j], IndexBy(values, ValueName)) else values[j]
  }

  /** Nobody keeps an object of this override, unless it is a superseded one that is merged itself. */
  lemma OnlyItself(vs: seq<Volume>, ds: seq<Volume>, os: seq<Volume>, w: nat, j: nat, kind: Kind)
    requires OverridesApart(os) && Descendants(vs, ds, os) && w < |vs| && j < |os| && !IsLast(os, j)
    requires SameObject(os[j], vs[w], kind)
    ensures vs[w] == os[j] && Superseded(ds, os, j)
  {
    hide IndexBy;
    var x := vs[w];
    assert Descends(x, ds, os) && !Apart(x, os[j]) && !Apart(os[j], x);
    if MergesWithItself(x, IndexBy(os, VolumeName)) {
      var l := ItsOverride(x, os);
    }
  }

  lemma WrittenOverride(vs: seq<Volume>, ds: seq<Volume>, os: seq<Volume>, vals: seq<VolumeValue>, j: nat)
    requires OverridesApart(os) && Descendants(vs, ds, os) && Agreeable(vs, os, vals) && j < |os|
    requires HoldsDue(vs, os, vals, |vs|) && !IsLast(os, j)
    requires Superseded(ds, os, j) ==> os[j] in vs
    ensures After(vs, os, vals, |vs|)[|vs| + j] == OverrideLeft(ds, os, vals[|vs|..], j)
  {
    hide IndexBy, Overlaid, Part, Descendants, OverridesApart, OverridesStill, SharersAgree, After, Superseded, Due;
    hide SameObject, IsLast;
    var all, final, k := vs + os, After(vs, os, vals, |vs|), |vs| + j;
    AfterFits(vs, os, vals, |vs|);
    assert all[k] == os[j] && vals[|vs|..][j] == vals[k];
    if Superseded(ds, os, j) && Keeps(os[j], IndexBy(os, VolumeName)) {
      var a :| 0 <= a < |vs| && vs[a] == os[j];
      assert all[a] == vs[a];
      KeptIsMerged(vs, os, vals, a);
      SameVolume(all, vals, a, k);
      SameVolume(all, final, a, k);
      KeptIsLeft(vs, os, vals, a);
    } else {
      forall kind ensures Part(final[k], kind) == Part(vals[k], kind) {
        Unwritten(vs, ds, os, vals, j, kind);
      }
      assert Shape(all[k], final[k]) && Shape(all[k], vals[k]);
      PartsTell(final[k], vals[k]);
      if Superseded(ds, os, j) {
        var a :| 0 <= a < |vs| && vs[a] == os[j];
        assert all[a] == vs[a];
        SameVolume(all, vals, a, k);
        KeptIsLeft(vs, os, vals, a);
      }
    }
  }

  lemma KeptIsLeft(vs: seq<Volume>, os: seq<Volume>, vals: seq<VolumeValue>, a: nat)
    requires |vals| == |vs| + |os| && Fits(vs + os, vals) && a < |vs|
    ensures LeftBehind(vals[a], Current(vs, vals))
         == if Keeps(vs[a], IndexBy(os, VolumeName)) then Overlaid(vals[a], Current(vs, vals)) else vals[a]
  {
    hide MergeVolume, Current, IndexBy;
    KeepsIff(vs, os, vals, a);
  }

  lemma Unwritten(vs: seq<Volume>, ds: seq<Volume>, os: seq<Volume>, vals: seq<VolumeValue>, j: nat, kind: Kind)
    requires OverridesApart(os) && Descendants(vs, ds, os) && j < |os| && !IsLast(os, j)
    requires |vals| == |vs| + |os| && HoldsDue(vs, os, vals, |vs|)
    requires !(Superseded(ds, os, j) && Keeps(os[j], IndexBy(os, VolumeName)))
    ensures Part(After(vs, os, vals, |vs|)[|vs| + j], kind) == Part(vals[|vs| + j], kind)
  {
    hide IndexBy, Overlaid, Part, Descendants, OverridesApart, After, Superseded, SameObject, Keeps;
    var w := Writer(vs, os, |vs|, (vs + os)[|vs| + j], kind);
    assert (vs + os)[|vs| + j] == os[j];
    assert Part(After(vs, os, vals, |vs|)[|vs| + j], kind) == Due(vs, os, vals, |vs|, |vs| + j, kind);
    if w >= 0 {
      OnlyItself(vs, ds, os, w, j, kind);
    }
  }

  // ---------------------------------------------------------------- on the heap

  lemma OverridesLeft(vs: seq<Volume>, ds: seq<Volume>, os: seq<Volume>, vals: seq<VolumeValue>)
    requires OverridesApart(os) && Descendants(vs, ds, os) && Agreeable(vs, os, vals)
    requires forall j | 0 <= j < |os| && Superseded(ds, os, j) :: os[j] in vs
    ensures forall j | 0 <= j < |os| :: After(vs, os, vals, |vs|)[|vs| + j] == OverrideLeft(ds, os, vals[|vs|..], j)
  {
    hide IndexBy, Descendants, OverridesApart, Fits, OverridesStill, SharersAgree, After, LeftBehind, HoldsDue;
    AllDue(vs, os, vals, |vs|);
    forall j | 0 <= j < |os| ensures After(vs, os, vals, |vs|)[|vs| + j] == OverrideLeft(ds, os, vals[|vs|..], j) {
      if IsLast(os, j) {
        UsedStill(vs, os, vals, |vs|, j);
      } else {
        WrittenOverride(vs, ds, os, vals, j);
      }
    }
  }

  lemma SupersededReturned(ds: seq<Volume>, os: seq<Volume>, j: nat)
    requires j < |os| && Superseded(ds, os, j)
    ensures os[j] in MergedPointers(ds, os)
  {
    hide IndexBy, IsLast, MergedPointers;
    NewOnesHave(os, IndexBy(ds, VolumeName).Keys, j);
    PointerMember(ds, os, os[j]);
  }

  /** One more merge of descendants, seen from the values before it. */
  lemma DescendantsMerged(vs: seq<Volume>, ds: seq<Volume>, os: seq<Volume>, vals: seq<VolumeValue>)
    requires OverridesApart(os) && Descendants(vs, ds, os)
    requires vals == Values(vs + os)
    ensures |vals| == |vs| + |os| && Agreeable(vs, os, vals)
    ensures vals[..|vs|] == Values(vs) && vals[|vs|..] == Values(os)
  {
    hide IndexBy, Descendants, OverridesApart, OverridesStill, SharersAgree, Fits, AllItemsWellKeyed;
    ValuesConcat(vs, os);
    HeapFits(vs + os);
    DescendantsAgree(vs, ds, os, vals);
  }

  /**
    The second merge when new names may come more than once: it returns the merge of the values once more, and of the
    overrides it writes exactly the superseded ones, each with what the last of its name puts over it.
   */
  method VolumesOnceMore(defaultVolumes: seq<Volume>, overrideVolumes: seq<Volume>)
    returns (once: seq<Volume>, twice: seq<Volume>)
    requires SafelyShared(defaultVolumes, overrideVolumes) && OverridesApart(overrideVolumes)
    modifies AllSources(defaultVolumes), AllSources(overrideVolumes)
    ensures Values(twice) == MergeVolumes(MergeVolumes(old(Values(defaultVolumes)), old(Values(overrideVolumes))),
                                          old(Values(overrideVolumes)))
    ensures forall j | 0 <= j < |overrideVolumes| ::
      ValueOf(overrideVolumes[j]) == OverrideLeft(defaultVolumes, overrideVolumes, old(Values(overrideVolumes)), j)
    ensures Descendants(twice, defaultVolumes, overrideVolumes)
    ensures AllSources(twice) <= AllSources(defaultVolumes) + AllSources(overrideVolumes)
  {
    hide *;
    ghost var os := Values(overrideVolumes);
    once := Volumes(defaultVolumes, overrideVolumes);
    FirstDescends(defaultVolumes, overrideVolumes);
    ghost var vals := Values(once + overrideVolumes);
    DescendantsMerged(once, defaultVolumes, overrideVolumes, vals);
    AgreeableTells(once, overrideVolumes, vals);
    forall j | 0 <= j < |overrideVolumes| && Superseded(defaultVolumes, overrideVolumes, j)
      ensures overrideVolumes[j] in once
    {
      SupersededReturned(defaultVolumes, overrideVolumes, j);
    }
    OverridesLeft(once, defaultVolumes, overrideVolumes, vals);
    twice := Volumes(once, overrideVolumes);
    NextDescends(once, defaultVolumes, overrideVolumes);
    forall j | 0 <= j < |overrideVolumes|
      ensures ValueOf(overrideVolumes[j]) == OverrideLeft(defaultVolumes, overrideVolumes, os, j)
    {
      ValueAt(once, overrideVolumes, j);
    }
  }

  lemma AgreeableTells(ds: seq<Volume>, os: seq<Volume>, vals: seq<VolumeValue>)
    requires Agreeable(ds, os, vals)
    ensures OverridesStill(ds, os) && SharersAgree(ds, os, vals)
  {
  }

  lemma ValueAt(ds: seq<Volume>, os: seq<Volume>, j: nat)
    requires j < |os|
    ensures ValueOf(os[j]) == Values(ds + os)[|ds| + j]
  {
  }

  // ---------------------------------------------------------------- and once more

  /** Superseded overrides keep their name, and the last of every name keeps its value. */
  lemma LeftIndex(ds: seq<Volume>, os: seq<Volume>, values: seq<VolumeValue>, now: seq<VolumeValue>)
    requires |values| == |now| == |os|
    requires forall j | 0 <= j < |os| :: values[j].name == os[j].name && now[j] == OverrideLeft(ds, os, values, j)
    ensures IndexBy(now, ValueName) == IndexBy(values, ValueName)
    ensures forall j | 0 <= j < |os| :: now[j].name == os[j].name
  {
    hide IndexBy, MergeFiles;
    forall j | 0 <= j < |os| ensures now[j].name == os[j].name { }
    IndexNames(os, values);
    IndexNames(os, now);
    forall k | k in IndexBy(os, VolumeName) ensures IndexBy(now, ValueName)[k] == IndexBy(values, ValueName)[k] {
      var j := LastOverride(os, values, k);
      var l := LastOverride(os, now, k);
      assert j == l;
    }
  }

  /** Where every override name is there already, only the last of each counts. */
  lemma SameIndexSameMerge(vs: seq<VolumeValue>, values: seq<VolumeValue>, now: seq<VolumeValue>)
    requires IndexBy(now, ValueName) == IndexBy(values, ValueName)
    requires forall j | 0 <= j < |values| :: values[j].name in IndexBy(vs, ValueName).Keys
    requires forall j | 0 <= j < |now| :: now[j].name in IndexBy(vs, ValueName).Keys
    ensures MergeVolumes(vs, now) == MergeVolumes(vs, values)
  {
    hide IndexBy, Overlaid, SliceStable;
    VolumeLaws.NewOnesNone(values, IndexBy(vs, ValueName).Keys);
    VolumeLaws.NewOnesNone(now, IndexBy(vs, ValueName).Keys);
  }

  lemma HeapNames(vs: seq<Volume>)
    ensures |Values(vs)| == |vs| && forall j | 0 <= j < |vs| :: Values(vs)[j].name == vs[j].name
    ensures IndexBy(Values(vs), ValueName).Keys == IndexBy(vs, VolumeName).Keys
  {
    hide SecretValue, ConfigMapValue;
    IndexNames(vs, Values(vs));
  }

  lemma ThirdMerge(vs: seq<Volume>, ds: seq<Volume>, os: seq<Volume>, dvals: seq<VolumeValue>, ovals: seq<VolumeValue>)
    requires Descendants(vs, ds, os) && |ovals| == |os| && AllItemsWellKeyed(dvals) && AllItemsWellKeyed(ovals)
    requires forall j | 0 <= j < |os| :: ovals[j].name == os[j].name && ValueOf(os[j]) == OverrideLeft(ds, os, ovals, j)
    requires Values(vs) == MergeVolumes(MergeVolumes(dvals, ovals), ovals)
    ensures MergeVolumes(Values(vs), Values(os)) == Values(vs)
  {
    hide IndexBy, MergeVolumes, OverrideLeft, Descends, AllItemsWellKeyed, ValueOf;
    HeapNames(vs);
    HeapNames(os);
    LeftIndex(ds, os, ovals, Values(os));
    SameIndexSameMerge(Values(vs), ovals, Values(os));
    VolumesStabilise(dvals, ovals);
  }

  /** The law on the heap, whatever the names: the third merge returns what the second did. */
  method VolumesThrice(defaultVolumes: seq<Volume>, overrideVolumes: seq<Volume>)
    returns (twice: seq<Volume>, thrice: seq<Volume>, ghost second: seq<VolumeValue>)
    requires SafelyShared(defaultVolumes, overrideVolumes) && OverridesApart(overrideVolumes)
    modifies AllSources(defaultVolumes), AllSources(overrideVolumes)
    ensures second == MergeVolumes(MergeVolumes(old(Values(defaultVolumes)), old(Values(overrideVolumes))),
                                   old(Values(overrideVolumes)))
    ensures Values(thrice) == second
  {
    hide *;
    ghost var dvals, ovals := Values(defaultVolumes), Values(overrideVolumes);
    ValuesWellKeyed(defaultVolumes);
    ValuesWellKeyed(overrideVolumes);
    HeapNames(overrideVolumes);
    var once;
    once, twice := VolumesOnceMore(defaultVolumes, overrideVolumes);
    second := Values(twice);
    DescendantsMerged(twice, defaultVolumes, overrideVolumes, Values(twice + overrideVolumes));
    AgreeableTells(twice, overrideVolumes, Values(twice + overrideVolumes));
    ThirdMerge(twice, defaultVolumes, overrideVolumes, dvals, ovals);
    thrice := Volumes(twice, overrideVolumes);
  }
}
