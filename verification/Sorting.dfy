/** The library sort the merges end with: `sort.SliceStable` on a key. */
module Sorting {
  import opened Text

  /** Puts `x` after every element whose key is not greater than its own. */
  function Insert<T>(s: seq<T>, x: T, key: T -> string): seq<T> {
    if s != [] && Less(key(x), key(s[|s| - 1]))
    then Insert(s[..|s| - 1], x, key) + [s[|s| - 1]]
    else s + [x]
  }

  function SliceStable<T>(s: seq<T>, key: T -> string): seq<T> {
    if s == [] then [] else Insert(SliceStable(s[..|s| - 1], key), s[|s| - 1], key)
  }

  ghost predicate SortedBy<T>(s: seq<T>, key: T -> string) {
    forall i, j | 0 <= i < j < |s| :: !Less(key(s[j]), key(s[i]))
  }

  /** The elements of `s` that have key `k`, in the order they stand. */
  function WithKey<T>(s: seq<T>, key: T -> string, k: string): seq<T> {
    if s == [] then []
    else WithKey(s[..|s| - 1], key, k) + if key(s[|s| - 1]) == k then [s[|s| - 1]] else []
  }

  lemma {:induction false} InsertKeeps<T>(s: seq<T>, x: T, key: T -> string)
    ensures multiset(Insert(s, x, key)) == multiset(s) + multiset{x}
  {
    if s != [] {
      assert s == s[..|s| - 1] + [s[|s| - 1]];
      InsertKeeps(s[..|s| - 1], x, key);
    }
  }

  lemma LastIsGreatest<T>(s: seq<T>, x: T, key: T -> string)
    requires SortedBy(s, key) && s != [] && !Less(key(x), key(s[|s| - 1]))
    ensures SortedBy(s + [x], key)
  {
    var last := s[|s| - 1];
    forall i | 0 <= i < |s| ensures !Less(key(x), key(s[i])) {
      if Less(key(x), key(s[i])) {
        LessTotal(key(s[i]), key(last));
        if Less(key(s[i]), key(last)) { LessTransitive(key(x), key(s[i]), key(last)); }
      }
    }
  }

  lemma {:induction false} InsertSorts<T>(s: seq<T>, x: T, key: T -> string)
    requires SortedBy(s, key)
    ensures SortedBy(Insert(s, x, key), key)
    ensures multiset(Insert(s, x, key)) == multiset(s) + multiset{x}
  {
    InsertKeeps(s, x, key);
    if s != [] {
      var front, last := s[..|s| - 1], s[|s| - 1];
      if Less(key(x), key(last)) {
        InsertSorts(front, x, key);
        var r := Insert(front, x, key);
        LessAsymmetric(key(x), key(last));
        forall i | 0 <= i < |r| ensures !Less(key(last), key(r[i])) {
          assert r[i] in multiset(r);
          assert r[i] == x || r[i] in front;
        }
      } else {
        LastIsGreatest(s, x, key);
      }
    }
  }

  lemma {:induction false} InsertStable<T>(s: seq<T>, x: T, key: T -> string, k: string)
    ensures WithKey(Insert(s, x, key), key, k) == WithKey(s, key, k) + if key(x) == k then [x] else []
  {
    if s != [] && Less(key(x), key(s[|s| - 1])) {
      var front, last := s[..|s| - 1], s[|s| - 1];
      InsertStable(front, x, key, k);
      LessIrreflexive(k);
      assert (Insert(front, x, key) + [last])[..|Insert(front, x, key)|] == Insert(front, x, key);
    } else {
      assert (s + [x])[..|s|] == s;
    }
  }

  /** Sorting sorts, loses and invents nothing, and keeps equal keys in the order they came. */
  lemma {:induction false} SliceStableSorts<T>(s: seq<T>, key: T -> string)
    ensures SortedBy(SliceStable(s, key), key)
    ensures multiset(SliceStable(s, key)) == multiset(s)
    ensures forall k :: WithKey(SliceStable(s, key), key, k) == WithKey(s, key, k)
  {
    if s != [] {
      var front, last := s[..|s| - 1], s[|s| - 1];
      assert s == front + [last];
      SliceStableSorts(front, key);
      InsertSorts(SliceStable(front, key), last, key);
      forall k ensures WithKey(SliceStable(s, key), key, k) == WithKey(s, key, k) {
        InsertStable(SliceStable(front, key), last, key, k);
      }
    }
  }

  lemma {:induction false} WithKeyConcat<T>(a: seq<T>, b: seq<T>, key: T -> string, k: string)
    ensures WithKey(a + b, key, k) == WithKey(a, key, k) + WithKey(b, key, k)
  {
    if b == [] {
      assert a + b == a;
    } else {
      WithKeyConcat(a, b[..|b| - 1], key, k);
      assert (a + b)[..|a + b| - 1] == a + b[..|b| - 1];
    }
  }

  /** Lists with the same keys in the same places are told apart by their entries of some key. */
  lemma {:induction false} SameByKey<T>(x: seq<T>, y: seq<T>, key: T -> string)
    requires |x| == |y| && forall i | 0 <= i < |x| :: key(x[i]) == key(y[i])
    requires forall k :: WithKey(x, key, k) == WithKey(y, key, k)
    ensures x == y
  {
    if x != [] {
      var front, last := x[..|x| - 1], x[|x| - 1];
      var front', last' := y[..|y| - 1], y[|y| - 1];
      assert WithKey(x, key, key(last)) == WithKey(y, key, key(last));
      assert last == last' by {
        var own, own' := WithKey(front, key, key(last)), WithKey(front', key, key(last));
        assert (own + [last])[|own + [last]| - 1] == (own' + [last'])[|own' + [last']| - 1];
      }
      forall k ensures WithKey(front, key, k) == WithKey(front', key, k) {
        var own, own' := WithKey(front, key, k), WithKey(front', key, k);
        var more := if key(last) == k then [last] else [];
        assert own + more == WithKey(x, key, k) == WithKey(y, key, k) == own' + more;
        assert own == (own + more)[..|own + more| - |more|] && own' == (own' + more)[..|own' + more| - |more|];
      }
      SameByKey(front, front', key);
      assert x == front + [last] && y == front' + [last'];
    }
  }

  /** So sorting them stably gives the same list only if they are the same. */
  lemma SortInjective<T>(x: seq<T>, y: seq<T>, key: T -> string)
    requires |x| == |y| && forall i | 0 <= i < |x| :: key(x[i]) == key(y[i])
    ensures SliceStable(x, key) == SliceStable(y, key) <==> x == y
  {
    SliceStableSorts(x, key);
    SliceStableSorts(y, key);
    if SliceStable(x, key) == SliceStable(y, key) {
      SameByKey(x, y, key);
    }
  }

  lemma SameMembers<T>(r: seq<T>, s: seq<T>)
    requires multiset(r) == multiset(s)
    ensures forall x :: x in r <==> x in s
  {
    forall x ensures x in r <==> x in s {
      assert x in r <==> x in multiset(r);
      assert x in s <==> x in multiset(s);
    }
  }
}
