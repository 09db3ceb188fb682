/** `StringSlices`: the ordered union commands, arguments, host names and access modes are merged with. */
module StringUnion {

  /** `a`, followed by each element of `b` that is not there yet. */
  function Union(a: seq<string>, b: seq<string>): seq<string> {
    if b == [] then a
    else
      var u := Union(a, b[..|b| - 1]);
      if b[|b| - 1] in u then u else u + [b[|b| - 1]]
  }

  method StringSlices(slice1: seq<string>, slice2: seq<string>) returns (merged: seq<string>)
    ensures merged == Union(slice1, slice2)
  {
    merged := slice1;
    for i := 0 to |slice2|
      invariant merged == Union(slice1, slice2[..i])
    {
      assert slice2[..i + 1][..i] == slice2[..i];
      if slice2[i] !in merged {
        merged := merged + [slice2[i]];
      }
    }
    assert slice2[..|slice2|] == slice2;
  }

  /** The first list stays in front, nothing is lost, and what is added is new and added once. */
  lemma {:induction false} UnionContents(a: seq<string>, b: seq<string>)
    ensures var u := Union(a, b);
      && a <= u
      && (forall x :: x in u <==> x in a || x in b)
      && (forall i, j | 0 <= i < j < |u| && |a| <= j :: u[i] != u[j])
  {
    if b != [] {
      UnionContents(a, b[..|b| - 1]);
      assert b == b[..|b| - 1] + [b[|b| - 1]];
    }
  }

  lemma {:induction false} UnionAbsorbs(a: seq<string>, b: seq<string>)
    requires forall x | x in b :: x in a
    ensures Union(a, b) == a
  {
    if b != [] {
      UnionAbsorbs(a, b[..|b| - 1]);
    }
  }

  lemma {:induction false} UnionAssociative(a: seq<string>, b: seq<string>, c: seq<string>)
    ensures Union(Union(a, b), c) == Union(a, Union(b, c))
  {
    if c != [] {
      var front, last := c[..|c| - 1], c[|c| - 1];
      UnionAssociative(a, b, front);
      UnionContents(a, Union(b, front));
      if last !in Union(b, front) {
        assert (Union(b, front) + [last])[..|Union(b, front)|] == Union(b, front);
      }
    }
  }

  lemma UnionIdempotent(a: seq<string>, b: seq<string>)
    ensures Union(Union(a, b), b) == Union(a, b)
    ensures Union(a, a) == a
  {
    UnionContents(a, b);
    UnionAbsorbs(Union(a, b), b);
    UnionAbsorbs(a, a);
  }
}
