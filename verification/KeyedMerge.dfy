/**
  The merge almost every list of a pod goes through: index both lists by key, combine
  the entries that share a key, range over the resulting map in whatever order the
  runtime picks, and sort.
 */
module KeyedMerge {
  import opened Text
  import opened Sorting

  /** The map a list is turned into; a later duplicate replaces an earlier one. */
  function IndexBy<T>(s: seq<T>, key: T -> string): map<string, T> {
    if s == [] then map[] else IndexBy(s[..|s| - 1], key)[key(s[|s| - 1]) := s[|s| - 1]]
  }

  function MergeMaps<T>(original: map<string, T>, override: map<string, T>, combine: (T, T) -> T): map<string, T> {
    map k | k in original.Keys + override.Keys ::
      if k !in override then original[k]
      else if k !in original then override[k]
      else combine(original[k], override[k])
  }

  lemma MergeMapsAt<T>(original: map<string, T>, override: map<string, T>, combine: (T, T) -> T)
    ensures var m := MergeMaps(original, override, combine);
      && m.Keys == original.Keys + override.Keys
      && forall k | k in m :: m[k] == if k !in override then original[k]
                                      else if k !in original then override[k]
                                      else combine(original[k], override[k])
  {
  }

  /** Every value sits under its own key. */
  ghost predicate WellKeyed<T>(m: map<string, T>, key: T -> string) {
    forall k | k in m :: key(m[k]) == k
  }

  /** `ks` is one of the orders in which a `range` over a map with these keys may go. */
  ghost predicate Enumerates(ks: seq<string>, keys: set<string>) {
    && (forall i, j | 0 <= i < j < |ks| :: ks[i] != ks[j])
    && (forall k :: k in ks <==> k in keys)
  }

  /** The values met when going through the map in the order `ks`. */
  ghost function Along<T>(ks: seq<string>, m: map<string, T>): (vs: seq<T>)
    requires forall k | k in ks :: k in m
    ensures |vs| == |ks| && forall i | 0 <= i < |ks| :: vs[i] == m[ks[i]]
  {
    seq(|ks|, i requires 0 <= i < |ks| => m[ks[i]])
  }

  /** The values of a map in the order of their keys. */
  ghost function Listing<T>(m: map<string, T>): seq<T> {
    Along(SortedKeys(m.Keys), m)
  }

  ghost function MergeBy<T>(original: seq<T>, override: seq<T>, key: T -> string, combine: (T, T) -> T): seq<T> {
    Listing(MergeMaps(IndexBy(original, key), IndexBy(override, key), combine))
  }

  /** `r` is what some run of "range over the map, then sort" gives. */
  ghost predicate Produces<T>(m: map<string, T>, key: T -> string, r: seq<T>) {
    exists ks | Enumerates(ks, m.Keys) :: r == SliceStable(Along(ks, m), key)
  }

  // ---------------------------------------------------------------- indexes

  lemma {:induction false} IndexSound<T>(s: seq<T>, key: T -> string)
    ensures WellKeyed(IndexBy(s, key), key)
    ensures forall k | k in IndexBy(s, key) :: IndexBy(s, key)[k] in s
    ensures forall x | x in s :: key(x) in IndexBy(s, key)
  {
    if s != [] {
      IndexSound(s[..|s| - 1], key);
      assert s == s[..|s| - 1] + [s[|s| - 1]];
    }
  }

  ghost predicate DistinctKeys<T>(s: seq<T>, key: T -> string) {
    forall i, j | 0 <= i < j < |s| :: key(s[i]) != key(s[j])
  }

  lemma {:induction false} IndexDistinct<T>(s: seq<T>, key: T -> string)
    requires DistinctKeys(s, key)
    ensures forall i | 0 <= i < |s| :: key(s[i]) in IndexBy(s, key) && IndexBy(s, key)[key(s[i])] == s[i]
  {
    if s != [] {
      IndexDistinct(s[..|s| - 1], key);
      assert forall i | 0 <= i < |s| - 1 :: s[i] == s[..|s| - 1][i];
    }
  }

  lemma {:induction false} IndexLast<T>(s: seq<T>, key: T -> string, k: string)
    ensures k in IndexBy(s, key) <==> WithKey(s, key, k) != []
    ensures k in IndexBy(s, key) ==> IndexBy(s, key)[k] == WithKey(s, key, k)[|WithKey(s, key, k)| - 1]
  {
    if s != [] {
      IndexLast(s[..|s| - 1], key, k);
    }
  }

  lemma ListingDistinct<T>(m: map<string, T>, key: T -> string)
    requires WellKeyed(m, key)
    ensures DistinctKeys(Listing(m), key)
  {
    var ks, l := SortedKeys(m.Keys), Listing(m);
    forall i, j | 0 <= i < j < |l| ensures key(l[i]) != key(l[j]) {
      assert ks[i] in ks && ks[j] in ks;
      LessIrreflexive(ks[i]);
    }
  }

  lemma ListingHas<T>(m: map<string, T>, k: string)
    requires k in m
    ensures m[k] in Listing(m)
  {
    var ks := SortedKeys(m.Keys);
    assert k in ks;
    var i :| 0 <= i < |ks| && ks[i] == k;
    assert Listing(m)[i] == m[k];
  }

  lemma ListingOnly<T>(m: map<string, T>, x: T)
    requires x in Listing(m)
    ensures exists k :: k in m && m[k] == x
  {
    var ks := SortedKeys(m.Keys);
    var i :| 0 <= i < |ks| && Listing(m)[i] == x;
    assert ks[i] in ks;
  }

  /** Indexing undoes listing. */
  lemma IndexListing<T>(m: map<string, T>, key: T -> string)
    requires WellKeyed(m, key)
    ensures IndexBy(Listing(m), key) == m
  {
    hide Listing, IndexBy;
    var l := Listing(m);
    var n := IndexBy(l, key);
    ListingDistinct(m, key);
    IndexDistinct(l, key);
    IndexSound(l, key);
    forall k | k in m ensures k in n && n[k] == m[k] {
      ListingHas(m, k);
      var i :| 0 <= i < |l| && l[i] == m[k];
      assert key(l[i]) == k;
    }
    forall k | k in n ensures k in m {
      ListingOnly(m, n[k]);
    }
  }

  // ---------------------------------------------------------------- range, then sort

  lemma SortedKeysEnumerate(keys: set<string>)
    ensures Enumerates(SortedKeys(keys), keys)
  {
    var ks := SortedKeys(keys);
    forall i, j | 0 <= i < j < |ks| ensures ks[i] != ks[j] { LessIrreflexive(ks[i]); }
  }

  ghost function KeysHolding<T>(ks: seq<string>, m: map<string, T>, x: T): set<string> {
    set k | k in ks && k in m && m[k] == x
  }

  /** How often a value is met counts the keys that hold it, in any order. */
  lemma {:induction false} AlongCounts<T>(ks: seq<string>, m: map<string, T>, x: T)
    requires forall i, j | 0 <= i < j < |ks| :: ks[i] != ks[j]
    requires forall k | k in ks :: k in m
    ensures multiset(Along(ks, m))[x] == |KeysHolding(ks, m, x)|
  {
    if ks != [] {
      var front, last := ks[..|ks| - 1], ks[|ks| - 1];
      assert ks == front + [last];
      assert last !in front;
      AlongCounts(front, m, x);
      assert Along(ks, m) == Along(front, m) + [m[last]];
      if m[last] == x {
        assert KeysHolding(ks, m, x) == KeysHolding(front, m, x) + {last};
      } else {
        assert KeysHolding(ks, m, x) == KeysHolding(front, m, x);
      }
    }
  }

  lemma AlongPermutes<T>(ks: seq<string>, js: seq<string>, m: map<string, T>)
    requires Enumerates(ks, m.Keys) && Enumerates(js, m.Keys)
    ensures multiset(Along(ks, m)) == multiset(Along(js, m))
  {
    forall x ensures multiset(Along(ks, m))[x] == multiset(Along(js, m))[x] {
      AlongCounts(ks, m, x);
      AlongCounts(js, m, x);
      assert KeysHolding(ks, m, x) == KeysHolding(js, m, x);
    }
  }

  /** Equal keys mean equal values: the only way for the order of a range not to show. */
  ghost predicate KeyDecidesValue<T>(m: map<string, T>, key: T -> string) {
    forall j, k | j in m && k in m && key(m[j]) == key(m[k]) :: m[j] == m[k]
  }

  /** The same for a list. */
  ghost predicate KeysTellApart<T>(s: seq<T>, key: T -> string) {
    forall i, j | 0 <= i < |s| && 0 <= j < |s| && key(s[i]) == key(s[j]) :: s[i] == s[j]
  }

  lemma SortedLastAgree<T>(r: seq<T>, s: seq<T>, key: T -> string)
    requires SortedBy(r, key) && SortedBy(s, key) && KeysTellApart(r, key)
    requires r != [] && multiset(r) == multiset(s)
    ensures s != [] && r[|r| - 1] == s[|s| - 1]
  {
    var x := r[|r| - 1];
    assert x in multiset(s) && x in s;
    var y := s[|s| - 1];
    assert y in multiset(r) && y in r;
    var i :| 0 <= i < |s| && s[i] == x;
    var j :| 0 <= j < |r| && r[j] == y;
    LessTotal(key(x), key(y));
  }

  lemma WithoutLast<T>(s: seq<T>)
    requires s != []
    ensures s == s[..|s| - 1] + [s[|s| - 1]]
    ensures multiset(s[..|s| - 1]) == multiset(s) - multiset{s[|s| - 1]}
  {
    assert s == s[..|s| - 1] + [s[|s| - 1]];
  }

  lemma {:induction false} SortedPermutationsAgree<T>(r: seq<T>, s: seq<T>, key: T -> string)
    requires SortedBy(r, key) && SortedBy(s, key) && KeysTellApart(r, key)
    requires multiset(r) == multiset(s)
    ensures r == s
  {
    if r == [] {
      assert |s| == |multiset(s)|;
    } else {
      SortedLastAgree(r, s, key);
      WithoutLast(r);
      WithoutLast(s);
      SortedPermutationsAgree(r[..|r| - 1], s[..|s| - 1], key);
    }
  }

  lemma ValueAlong<T>(ks: seq<string>, m: map<string, T>, x: T) returns (k: string)
    requires Enumerates(ks, m.Keys) && x in multiset(Along(ks, m))
    ensures k in m && m[k] == x
  {
    assert x in Along(ks, m);
    var j :| 0 <= j < |ks| && Along(ks, m)[j] == x;
    assert ks[j] in ks;
    k := ks[j];
  }

  lemma ProducedAgree<T>(m: map<string, T>, key: T -> string, ks: seq<string>, js: seq<string>)
    requires KeyDecidesValue(m, key) && Enumerates(ks, m.Keys) && Enumerates(js, m.Keys)
    ensures SliceStable(Along(ks, m), key) == SliceStable(Along(js, m), key)
  {
    var r, s := SliceStable(Along(ks, m), key), SliceStable(Along(js, m), key);
    AlongPermutes(ks, js, m);
    SliceStableSorts(Along(ks, m), key);
    SliceStableSorts(Along(js, m), key);
    forall i, j | 0 <= i < |r| && 0 <= j < |r| && key(r[i]) == key(r[j]) ensures r[i] == r[j] {
      assert r[i] in multiset(r) && r[j] in multiset(r);
      var a := ValueAlong(ks, m, r[i]);
      var b := ValueAlong(ks, m, r[j]);
    }
    SortedPermutationsAgree(r, s, key);
  }

  /** A range may start with any two keys. */
  lemma StartWith(keys: set<string>, j: string, k: string) returns (ks: seq<string>)
    requires j in keys && k in keys && j != k
    ensures Enumerates(ks, keys) && |ks| >= 2 && ks[0] == j && ks[1] == k
  {
    var rest := SortedKeys(keys - {j, k});
    SortedKeysEnumerate(keys - {j, k});
    ks := [j, k] + rest;
    forall a, b | 0 <= a < b < |ks| ensures ks[a] != ks[b] {
      if b >= 2 { assert ks[b] in rest; }
    }
  }

  lemma {:induction false} WithKeyFirst<T>(s: seq<T>, key: T -> string)
    requires s != []
    ensures WithKey(s, key, key(s[0])) != [] && WithKey(s, key, key(s[0]))[0] == s[0]
  {
    if |s| > 1 {
      WithKeyFirst(s[..|s| - 1], key);
    }
  }

  /** The result does not depend on the order of the range exactly when equal keys mean equal values. */
  lemma OrderIndependentIff<T>(m: map<string, T>, key: T -> string)
    ensures (forall r, s | Produces(m, key, r) && Produces(m, key, s) :: r == s) <==> KeyDecidesValue(m, key)
  {
    if KeyDecidesValue(m, key) {
      forall r, s | Produces(m, key, r) && Produces(m, key, s) ensures r == s {
        var ks :| Enumerates(ks, m.Keys) && r == SliceStable(Along(ks, m), key);
        var js :| Enumerates(js, m.Keys) && s == SliceStable(Along(js, m), key);
        ProducedAgree(m, key, ks, js);
      }
    } else {
      var j, k :| j in m && k in m && key(m[j]) == key(m[k]) && m[j] != m[k];
      OrderShows(m, key, j, k);
    }
  }

  lemma OrderShows<T>(m: map<string, T>, key: T -> string, j: string, k: string)
    requires j in m && k in m && key(m[j]) == key(m[k]) && m[j] != m[k]
    ensures exists r, s :: Produces(m, key, r) && Produces(m, key, s) && r != s
  {
    var ks := StartWith(m.Keys, j, k);
    var js := StartWith(m.Keys, k, j);
    var r, s := SliceStable(Along(ks, m), key), SliceStable(Along(js, m), key);
    SliceStableSorts(Along(ks, m), key);
    SliceStableSorts(Along(js, m), key);
    WithKeyFirst(Along(ks, m), key);
    WithKeyFirst(Along(js, m), key);
    assert WithKey(r, key, key(m[j])) != WithKey(s, key, key(m[j]));
    assert Produces(m, key, r) && Produces(m, key, s);
  }

  lemma {:induction false} SortedStays<T>(s: seq<T>, key: T -> string)
    requires SortedBy(s, key)
    ensures SliceStable(s, key) == s
  {
    if s != [] {
      var front := s[..|s| - 1];
      assert s == front + [s[|s| - 1]];
      SortedStays(front, key);
      assert front != [] ==> front[|front| - 1] == s[|s| - 2];
    }
  }

  lemma ListingSorted<T>(m: map<string, T>, key: T -> string)
    requires WellKeyed(m, key)
    ensures SortedBy(Listing(m), key)
  {
    var ks, l := SortedKeys(m.Keys), Listing(m);
    forall i, j | 0 <= i < j < |l| ensures !Less(key(l[j]), key(l[i])) {
      assert ks[i] in ks && ks[j] in ks;
      LessAsymmetric(ks[i], ks[j]);
    }
  }

  /** Whatever order the range takes, sorting brings back the listing. */
  lemma SortedRangeIsListing<T>(ks: seq<string>, m: map<string, T>, key: T -> string)
    requires Enumerates(ks, m.Keys) && WellKeyed(m, key)
    ensures SliceStable(Along(ks, m), key) == Listing(m)
  {
    SortedKeysEnumerate(m.Keys);
    ProducedAgree(m, key, ks, SortedKeys(m.Keys));
    ListingSorted(m, key);
    SortedStays(Listing(m), key);
  }

  /** A well-keyed map has one outcome, and it is its listing. */
  lemma WellKeyedOutcome<T>(m: map<string, T>, key: T -> string, r: seq<T>)
    requires WellKeyed(m, key)
    ensures Produces(m, key, r) <==> r == Listing(m)
  {
    SortedKeysEnumerate(m.Keys);
    SortedRangeIsListing(SortedKeys(m.Keys), m, key);
    if Produces(m, key, r) {
      var ks :| Enumerates(ks, m.Keys) && r == SliceStable(Along(ks, m), key);
      SortedRangeIsListing(ks, m, key);
    }
  }

  // ---------------------------------------------------------------- the loops

  /** `createXMap`: one assignment per element. */
  method BuildIndex<T>(s: seq<T>, key: T -> string) returns (m: map<string, T>)
    ensures m == IndexBy(s, key)
  {
    m := map[];
    for i := 0 to |s|
      invariant m == IndexBy(s[..i], key)
    {
      m := m[key(s[i]) := s[i]];
      assert s[..i + 1][..i] == s[..i];
    }
    assert s[..|s|] == s;
  }

  /** `vs` are the values of `m` under `keys`, met in the order `ks`. */
  ghost predicate Collected<T>(vs: seq<T>, ks: seq<string>, keys: set<string>, m: map<string, T>) {
    Enumerates(ks, keys) && keys <= m.Keys && vs == Along(ks, m)
  }

  lemma CollectNone<T>(m: map<string, T>)
    ensures Collected([], [], {}, m)
  {
  }

  lemma CollectMore<T>(vs: seq<T>, ks: seq<string>, keys: set<string>, m: map<string, T>, k: string)
    requires Collected(vs, ks, keys, m) && k in m && k !in keys
    ensures Collected(vs + [m[k]], ks + [k], keys + {k}, m)
  {
    assert k !in ks;
    assert forall i | 0 <= i < |ks| :: ks[i] in ks;
  }

  /** Appends the values of `m` in an arbitrary order; `ks` records the order taken. */
  method RangeValues<T>(m: map<string, T>) returns (vs: seq<T>, ghost ks: seq<string>)
    ensures Enumerates(ks, m.Keys)
    ensures vs == Along(ks, m)
  {
    vs, ks := [], [];
    var pending := m.Keys;
    CollectNone(m);
    while pending != {}
      invariant pending <= m.Keys
      invariant Collected(vs, ks, m.Keys - pending, m)
      decreases |pending|
    {
      var k :| k in pending;
      CollectMore(vs, ks, m.Keys - pending, m, k);
      assert m.Keys - pending + {k} == m.Keys - (pending - {k});
      pending := pending - {k};
      vs, ks := vs + [m[k]], ks + [k];
    }
    assert m.Keys - pending == m.Keys;
  }

  /** Copies a map entry by entry. */
  method CopyMap<T>(m: map<string, T>) returns (r: map<string, T>)
    ensures r == m
  {
    r := map[];
    var pending := m.Keys;
    while pending != {}
      invariant pending <= m.Keys
      invariant r == Without(m, pending)
      decreases |pending|
    {
      var k :| k in pending;
      pending := pending - {k};
      r := r[k := m[k]];
    }
  }

  ghost function Without<T>(m: map<string, T>, keys: set<string>): map<string, T> {
    map k | k in m.Keys - keys :: m[k]
  }

  lemma NoneLaid<T>(original: map<string, T>, override: map<string, T>, combine: (T, T) -> T)
    ensures MergeMaps(original, Without(override, override.Keys), combine) == original
    ensures Without(override, {}) == override
  {
  }

  lemma OneMoreLaid<T>(original: map<string, T>, override: map<string, T>, pending: set<string>, k: string,
      combine: (T, T) -> T)
    requires k in pending && k in override
    ensures MergeMaps(original, Without(override, pending), combine)
              [k := if k in original then combine(original[k], override[k]) else override[k]]
         == MergeMaps(original, Without(override, pending - {k}), combine)
  {
    var less, more := Without(override, pending), Without(override, pending - {k});
    assert more.Keys == less.Keys + {k};
  }

  /** Lays the override over a copy of the original, key by key in an arbitrary order. */
  method OverlayMap<T>(original: map<string, T>, override: map<string, T>, combine: (T, T) -> T)
    returns (merged: map<string, T>)
    ensures merged == MergeMaps(original, override, combine)
  {
    hide MergeMaps, Without;
    merged := CopyMap(original);
    NoneLaid(original, override, combine);
    var pending := override.Keys;
    while pending != {}
      invariant pending <= override.Keys
      invariant merged == MergeMaps(original, Without(override, pending), combine)
      decreases |pending|
    {
      var k :| k in pending;
      OneMoreLaid(original, override, pending, k, combine);
      pending := pending - {k};
      merged := merged[k := if k in original then combine(original[k], override[k]) else override[k]];
    }
  }

  /** The merge of `Envs`, `VolumeDevices`, `VolumeMounts` and `VolumeClaimTemplates`. */
  method MergeByKey<T>(original: seq<T>, override: seq<T>, key: T -> string, combine: (T, T) -> T)
    returns (merged: seq<T>)
    ensures Produces(MergeMaps(IndexBy(original, key), IndexBy(override, key), combine), key, merged)
    ensures WellKeyed(MergeMaps(IndexBy(original, key), IndexBy(override, key), combine), key)
            ==> merged == MergeBy(original, override, key, combine)
  {
    var originalMap := BuildIndex(original, key);
    var overrideMap := BuildIndex(override, key);
    var mergedMap := OverlayMap(originalMap, overrideMap, combine);
    merged := SortRange(mergedMap, key);
  }

  /** Ranges over a map and sorts what it met. */
  method SortRange<T>(m: map<string, T>, key: T -> string) returns (r: seq<T>)
    ensures Produces(m, key, r)
    ensures WellKeyed(m, key) ==> r == Listing(m)
  {
    ghost var ks;
    r, ks := RangeValues(m);
    r := SliceStable(r, key);
    assert Produces(m, key, r);
    if WellKeyed(m, key) {
      WellKeyedOutcome(m, key, r);
    }
  }
}
