/** The algebra of the keyed merge, proved once for every list it is used on. */
module MergeLaws {
  import opened Text
  import opened Sorting
  import opened KeyedMerge

  /** Combining two entries found under one key gives an entry that still has this key. */
  ghost predicate KeepsKey<T>(a: seq<T>, b: seq<T>, key: T -> string, combine: (T, T) -> T) {
    WellKeyed(MergeMaps(IndexBy(a, key), IndexBy(b, key), combine), key)
  }

  lemma IndexMerge<T>(a: seq<T>, b: seq<T>, key: T -> string, combine: (T, T) -> T)
    requires KeepsKey(a, b, key, combine)
    ensures IndexBy(MergeBy(a, b, key, combine), key) == MergeMaps(IndexBy(a, key), IndexBy(b, key), combine)
  {
    IndexListing(MergeMaps(IndexBy(a, key), IndexBy(b, key), combine), key);
  }

  ghost function Last<T>(s: seq<T>): T
    requires s != []
  {
    s[|s| - 1]
  }

  /** What a merge holds for key `k`, told from the two lists alone. */
  ghost predicate IsMergeOf<T>(x: T, a: seq<T>, b: seq<T>, key: T -> string, combine: (T, T) -> T) {
    var fromA, fromB := WithKey(a, key, key(x)), WithKey(b, key, key(x));
    if fromB == [] then fromA != [] && x == Last(fromA)
    else if fromA == [] then x == Last(fromB)
    else x == combine(Last(fromA), Last(fromB))
  }

  ghost function KeysOf<T>(s: seq<T>, key: T -> string): (r: seq<string>)
    ensures |r| == |s| && forall i | 0 <= i < |s| :: r[i] == key(s[i])
  {
    seq(|s|, i requires 0 <= i < |s| => key(s[i]))
  }

  /**
    A merged list is strictly sorted, has the keys of both lists and no others, and holds under
    each key the combination of the last duplicates.
   */
  lemma MergeContents<T>(a: seq<T>, b: seq<T>, key: T -> string, combine: (T, T) -> T)
    requires KeepsKey(a, b, key, combine)
    ensures var r := MergeBy(a, b, key, combine);
      && Ascending(KeysOf(r, key))
      && (forall k :: k in KeysOf(r, key) <==> WithKey(a, key, k) != [] || WithKey(b, key, k) != [])
      && (forall i | 0 <= i < |r| :: IsMergeOf(r[i], a, b, key, combine))
  {
    var A, B := IndexBy(a, key), IndexBy(b, key);
    var m := MergeMaps(A, B, combine);
    var r, ks := Listing(m), SortedKeys(m.Keys);
    forall i | 0 <= i < |r| ensures KeysOf(r, key)[i] == ks[i] && IsMergeOf(r[i], a, b, key, combine) {
      assert ks[i] in ks;
      IndexLast(a, key, ks[i]);
      IndexLast(b, key, ks[i]);
    }
    assert KeysOf(r, key) == ks;
    forall k ensures k in ks <==> WithKey(a, key, k) != [] || WithKey(b, key, k) != [] {
      IndexLast(a, key, k);
      IndexLast(b, key, k);
    }
  }

  /** Lists that give one index give one merge. */
  lemma ListingInjective<T>(m: map<string, T>, n: map<string, T>, key: T -> string)
    requires WellKeyed(m, key) && WellKeyed(n, key)
    ensures Listing(m) == Listing(n) <==> m == n
  {
    IndexListing(m, key);
    IndexListing(n, key);
  }

  /** Whenever all three lists have a key, it does not matter which two entries are combined first. */
  ghost predicate AssociatesOn<T>(A: map<string, T>, B: map<string, T>, C: map<string, T>, combine: (T, T) -> T) {
    forall k | k in A && k in B && k in C ::
      combine(combine(A[k], B[k]), C[k]) == combine(A[k], combine(B[k], C[k]))
  }

  lemma MergeMapsAssociative<T>(A: map<string, T>, B: map<string, T>, C: map<string, T>, combine: (T, T) -> T)
    requires AssociatesOn(A, B, C, combine)
    ensures MergeMaps(MergeMaps(A, B, combine), C, combine) == MergeMaps(A, MergeMaps(B, C, combine), combine)
  {
  }

  lemma MergeAssociative<T>(a: seq<T>, b: seq<T>, c: seq<T>, key: T -> string, combine: (T, T) -> T)
    requires KeepsKey(a, b, key, combine) && KeepsKey(b, c, key, combine)
    requires AssociatesOn(IndexBy(a, key), IndexBy(b, key), IndexBy(c, key), combine)
    ensures MergeBy(MergeBy(a, b, key, combine), c, key, combine)
         == MergeBy(a, MergeBy(b, c, key, combine), key, combine)
  {
    IndexMerge(a, b, key, combine);
    IndexMerge(b, c, key, combine);
    MergeMapsAssociative(IndexBy(a, key), IndexBy(b, key), IndexBy(c, key), combine);
  }

  lemma MergeMapsAssociativeIff<T>(A: map<string, T>, B: map<string, T>, C: map<string, T>, combine: (T, T) -> T)
    ensures MergeMaps(MergeMaps(A, B, combine), C, combine) == MergeMaps(A, MergeMaps(B, C, combine), combine)
        <==> AssociatesOn(A, B, C, combine)
  {
    var l, r := MergeMaps(MergeMaps(A, B, combine), C, combine), MergeMaps(A, MergeMaps(B, C, combine), combine);
    if l == r {
      forall k | k in A && k in B && k in C
          ensures combine(combine(A[k], B[k]), C[k]) == combine(A[k], combine(B[k], C[k])) {
        assert l[k] == r[k];
      }
    }
  }

  /** Where keys are kept throughout, whole lists associate exactly when the entries all three have do. */
  lemma MergeAssociativeIff<T>(a: seq<T>, b: seq<T>, c: seq<T>, key: T -> string, combine: (T, T) -> T)
    requires KeepsKey(a, b, key, combine) && KeepsKey(b, c, key, combine)
    requires KeepsKey(MergeBy(a, b, key, combine), c, key, combine)
        && KeepsKey(a, MergeBy(b, c, key, combine), key, combine)
    ensures MergeBy(MergeBy(a, b, key, combine), c, key, combine)
        == MergeBy(a, MergeBy(b, c, key, combine), key, combine)
        <==> AssociatesOn(IndexBy(a, key), IndexBy(b, key), IndexBy(c, key), combine)
  {
    hide IndexBy, MergeMaps, Listing, AssociatesOn;
    var A, B, C := IndexBy(a, key), IndexBy(b, key), IndexBy(c, key);
    IndexMerge(a, b, key, combine);
    IndexMerge(b, c, key, combine);
    ListingInjective(MergeMaps(MergeMaps(A, B, combine), C, combine),
        MergeMaps(A, MergeMaps(B, C, combine), combine), key);
    MergeMapsAssociativeIff(A, B, C, combine);
  }

  /** For every entry of the override, combining with it a second time changes nothing. */
  ghost predicate SettlesAtOnce<T>(A: map<string, T>, C: map<string, T>, combine: (T, T) -> T) {
    forall k | k in C ::
      if k in A then combine(combine(A[k], C[k]), C[k]) == combine(A[k], C[k]) else combine(C[k], C[k]) == C[k]
  }

  lemma OverlayTwiceIff<T>(A: map<string, T>, C: map<string, T>, combine: (T, T) -> T)
    ensures MergeMaps(MergeMaps(A, C, combine), C, combine) == MergeMaps(A, C, combine)
        <==> SettlesAtOnce(A, C, combine)
  {
    var once := MergeMaps(A, C, combine);
    var twice := MergeMaps(once, C, combine);
    if twice == once {
      forall k | k in C
        ensures if k in A then combine(combine(A[k], C[k]), C[k]) == combine(A[k], C[k])
            else combine(C[k], C[k]) == C[k]
      {
        assert twice[k] == once[k];
      }
    }
  }

  /** Reapplying one override changes nothing exactly when every entry of it settles at once. */
  lemma ReapplyIff<T>(a: seq<T>, c: seq<T>, key: T -> string, combine: (T, T) -> T)
    requires KeepsKey(a, c, key, combine)
    requires KeepsKey(MergeBy(a, c, key, combine), c, key, combine)
    ensures MergeBy(MergeBy(a, c, key, combine), c, key, combine) == MergeBy(a, c, key, combine)
        <==> SettlesAtOnce(IndexBy(a, key), IndexBy(c, key), combine)
  {
    var A, C := IndexBy(a, key), IndexBy(c, key);
    var once := MergeMaps(A, C, combine);
    IndexMerge(a, c, key, combine);
    ListingInjective(MergeMaps(once, C, combine), once, key);
    OverlayTwiceIff(A, C, combine);
  }

  /** Merging a list with itself gives it back exactly when it is strictly sorted and its entries are settled. */
  lemma SelfMergeIff<T>(s: seq<T>, key: T -> string, combine: (T, T) -> T)
    requires KeepsKey(s, s, key, combine)
    ensures MergeBy(s, s, key, combine) == s
        <==> Ascending(KeysOf(s, key)) && forall i | 0 <= i < |s| :: combine(s[i], s[i]) == s[i]
  {
    var S := IndexBy(s, key);
    var m := MergeMaps(S, S, combine);
    IndexSound(s, key);
    if MergeBy(s, s, key, combine) == s {
      MergeContents(s, s, key, combine);
      AscendingDistinct(s, key);
      IndexDistinct(s, key);
      IndexMerge(s, s, key, combine);
      forall i | 0 <= i < |s| ensures combine(s[i], s[i]) == s[i] {
        assert m[key(s[i])] == combine(S[key(s[i])], S[key(s[i])]);
      }
    }
    if Ascending(KeysOf(s, key)) && forall i | 0 <= i < |s| :: combine(s[i], s[i]) == s[i] {
      AscendingListing(s, key);
      assert m == S by {
        forall k | k in S ensures m[k] == S[k] {
          assert S[k] in s;
        }
      }
    }
  }

  lemma AscendingDistinct<T>(s: seq<T>, key: T -> string)
    requires Ascending(KeysOf(s, key))
    ensures DistinctKeys(s, key)
  {
    var ks := KeysOf(s, key);
    forall i, j | 0 <= i < j < |s| ensures key(s[i]) != key(s[j]) {
      assert Less(ks[i], ks[j]);
      LessIrreflexive(ks[i]);
    }
  }

  /** A strictly sorted list is the listing of its own index. */
  lemma AscendingListing<T>(s: seq<T>, key: T -> string)
    requires Ascending(KeysOf(s, key))
    ensures Listing(IndexBy(s, key)) == s
  {
    var S, ks := IndexBy(s, key), KeysOf(s, key);
    AscendingDistinct(s, key);
    IndexDistinct(s, key);
    IndexSound(s, key);
    forall k ensures k in ks <==> k in SortedKeys(S.Keys) {
      if k in S {
        assert S[k] in s;
        var i :| 0 <= i < |s| && s[i] == S[k];
        assert ks[i] == k;
      }
    }
    AscendingUnique(ks, SortedKeys(S.Keys));
  }

  /** `combine` never changes the key of the entry it is laid over. */
  lemma KeepsKeyAlways<T>(a: seq<T>, b: seq<T>, key: T -> string, combine: (T, T) -> T)
    requires forall x, y | key(x) == key(y) :: key(combine(x, y)) == key(x)
    ensures KeepsKey(a, b, key, combine)
  {
    IndexSound(a, key);
    IndexSound(b, key);
  }
}
