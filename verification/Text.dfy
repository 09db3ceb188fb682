/** Strings as the operator uses them: Go's ordering on strings, and the key sets that are listed in that order. */
module Text {

  /** Go's `<` on strings. */
  predicate Less(a: string, b: string) {
    b != [] && (a == [] || a[0] < b[0] || (a[0] == b[0] && Less(a[1..], b[1..])))
  }

  /** Up to `i` the strings are the same; there the first one ends, or has the smaller character. */
  ghost predicate SmallerAt(a: string, b: string, i: nat) {
    && i <= |a| && i < |b|
    && (forall j | 0 <= j < i :: a[j] == b[j])
    && (i < |a| ==> a[i] < b[i])
  }

  lemma {:induction false} LessAt(a: string, b: string) returns (i: nat)
    requires Less(a, b)
    ensures SmallerAt(a, b, i)
  {
    i := 0;
    if a != [] && a[0] == b[0] {
      i := LessAt(a[1..], b[1..]);
      i := i + 1;
      forall j | 0 <= j < i ensures a[j] == b[j] {
        if j > 0 { assert a[j] == a[1..][j - 1] && b[j] == b[1..][j - 1]; }
      }
    }
  }

  lemma {:induction false} SmallerIsLess(a: string, b: string, i: nat)
    requires SmallerAt(a, b, i)
    ensures Less(a, b)
  {
    if i > 0 {
      assert a[0] == b[0];
      forall j | 0 <= j < i - 1 ensures a[1..][j] == b[1..][j] {
        assert a[j + 1] == b[j + 1];
      }
      SmallerIsLess(a[1..], b[1..], i - 1);
    }
  }

  /** The order of Go strings: at the first difference the smaller character, or the end of the string, comes first. */
  lemma LessIff(a: string, b: string)
    ensures Less(a, b) <==> exists i: nat :: SmallerAt(a, b, i)
  {
    if Less(a, b) {
      var i := LessAt(a, b);
    }
    if i: nat :| SmallerAt(a, b, i) {
      SmallerIsLess(a, b, i);
    }
  }

  lemma {:induction false} LessIrreflexive(a: string)
    ensures !Less(a, a)
  {
    if a != [] {
      LessIrreflexive(a[1..]);
    }
  }

  lemma {:induction false} LessTransitive(a: string, b: string, c: string)
    requires Less(a, b) && Less(b, c)
    ensures Less(a, c)
  {
    if a != [] && a[0] == b[0] == c[0] {
      LessTransitive(a[1..], b[1..], c[1..]);
    }
  }

  lemma {:induction false} LessTotal(a: string, b: string)
    ensures a == b || Less(a, b) || Less(b, a)
  {
    if a != [] && b != [] && a[0] == b[0] {
      LessTotal(a[1..], b[1..]);
      assert a == [a[0]] + a[1..] && b == [b[0]] + b[1..];
    }
  }

  lemma LessAsymmetric(a: string, b: string)
    requires Less(a, b)
    ensures !Less(b, a)
  {
    if Less(b, a) {
      LessTransitive(a, b, a);
      LessIrreflexive(a);
    }
  }

  ghost predicate Ascending(ks: seq<string>) {
    forall i, j | 0 <= i < j < |ks| :: Less(ks[i], ks[j])
  }

  ghost predicate IsLeast(k: string, ks: set<string>) {
    k in ks && forall j | j in ks :: j == k || Less(k, j)
  }

  lemma {:induction false} LeastExists(ks: set<string>)
    requires ks != {}
    ensures exists k :: IsLeast(k, ks)
    decreases |ks|
  {
    var x :| x in ks;
    if ks == {x} {
      assert IsLeast(x, ks);
    } else {
      LeastExists(ks - {x});
      var k :| IsLeast(k, ks - {x});
      LessTotal(k, x);
      if Less(x, k) {
        forall j | j in ks ensures j == x || Less(x, j) {
          if j != x && j != k {
            LessTransitive(x, k, j);
          }
        }
        assert IsLeast(x, ks);
      } else {
        assert IsLeast(k, ks);
      }
    }
  }

  /** The keys of a set in ascending order. */
  ghost function SortedKeys(ks: set<string>): (r: seq<string>)
    ensures Ascending(r)
    ensures forall k :: k in r <==> k in ks
    decreases |ks|
  {
    if ks == {} then [] else
      LeastExists(ks);
      var k :| IsLeast(k, ks);
      var rest := SortedKeys(ks - {k});
      assert forall i | 0 <= i < |rest| :: rest[i] in rest && Less(k, rest[i]);
      [k] + rest
  }

  /** Only one ascending list holds given keys: sorting erases the order the keys came in. */
  lemma {:induction false} AscendingUnique(a: seq<string>, b: seq<string>)
    requires Ascending(a) && Ascending(b)
    requires forall k :: k in a <==> k in b
    ensures a == b
  {
    assert b != [] ==> b[0] in b && b[0] in a;
    if a != [] {
      assert a[0] in b && b != [] && b[0] in a;
      if a[0] != b[0] {
        LessAsymmetric(a[0], b[0]);
      }
      forall k ensures k in a[1..] <==> k in b[1..] {
        LessIrreflexive(a[0]);
        assert a == [a[0]] + a[1..] && b == [b[0]] + b[1..];
        assert k in a <==> k == a[0] || k in a[1..];
        assert k in b <==> k == b[0] || k in b[1..];
      }
      AscendingUnique(a[1..], b[1..]);
      assert a == [a[0]] + a[1..] && b == [b[0]] + b[1..];
    }
  }
}
