/** `HostAliases`: aliases of one address accumulate their host names instead of replacing each other. */
module AliasMerge {
  import opened Text
  import opened Sorting
  import opened KeyedMerge
  import opened MergeLaws
  import opened StringUnion

  datatype HostAlias = HostAlias(ip: string, hostnames: seq<string>)

  function AliasIP(h: HostAlias): string { h.ip }

  function AbsorbOne(m: map<string, HostAlias>, h: HostAlias): map<string, HostAlias> {
    m[h.ip := if h.ip in m then HostAlias(h.ip, Union(m[h.ip].hostnames, h.hostnames)) else h]
  }

  /** Takes in the aliases one after the other. */
  function Absorb(m: map<string, HostAlias>, aliases: seq<HostAlias>): map<string, HostAlias> {
    if aliases == [] then m else AbsorbOne(Absorb(m, aliases[..|aliases| - 1]), aliases[|aliases| - 1])
  }

  ghost function MergeAliases(original: seq<HostAlias>, override: seq<HostAlias>): seq<HostAlias> {
    Listing(Absorb(IndexBy(original, AliasIP), override))
  }

  method HostAliases(originalAliases: seq<HostAlias>, overrideAliases: seq<HostAlias>)
    returns (merged: seq<HostAlias>)
    ensures merged == MergeAliases(originalAliases, overrideAliases)
  {
    var m := BuildIndex(originalAliases, AliasIP);
    ghost var start := m;
    IndexSound(originalAliases, AliasIP);
    for i := 0 to |overrideAliases|
      invariant m == Absorb(start, overrideAliases[..i])
    {
      assert overrideAliases[..i + 1][..i] == overrideAliases[..i];
      var override := overrideAliases[i];
      if override.ip in m {
        var mergedHostNames := StringSlices(m[override.ip].hostnames, override.hostnames);
        m := m[override.ip := HostAlias(override.ip, mergedHostNames)];
      } else {
        m := m[override.ip := override];
      }
    }
    assert overrideAliases[..|overrideAliases|] == overrideAliases;
    AbsorbWellKeyed(start, overrideAliases);
    merged := SortRange(m, AliasIP);
  }

  lemma {:induction false} AbsorbWellKeyed(m: map<string, HostAlias>, aliases: seq<HostAlias>)
    requires WellKeyed(m, AliasIP)
    ensures WellKeyed(Absorb(m, aliases), AliasIP)
  {
    if aliases != [] {
      AbsorbWellKeyed(m, aliases[..|aliases| - 1]);
    }
  }

  lemma {:induction false} AbsorbConcat(m: map<string, HostAlias>, a: seq<HostAlias>, b: seq<HostAlias>)
    ensures Absorb(m, a + b) == Absorb(Absorb(m, a), b)
  {
    if b == [] {
      assert a + b == a;
    } else {
      AbsorbConcat(m, a, b[..|b| - 1]);
      assert (a + b)[..|a + b| - 1] == a + b[..|b| - 1];
    }
  }

  // ---------------------------------------------------------------- one address at a time

  /** The host names gathered from aliases of one address, starting from `names`. */
  function Gather(names: seq<string>, aliases: seq<HostAlias>): seq<string> {
    if aliases == [] then names else Union(Gather(names, aliases[..|aliases| - 1]), aliases[|aliases| - 1].hostnames)
  }

  /** What the entries of one address, in order, become when nothing was there before. */
  function Folded(aliases: seq<HostAlias>): seq<string>
    requires aliases != []
  {
    if |aliases| == 1 then aliases[0].hostnames
    else Union(Folded(aliases[..|aliases| - 1]), aliases[|aliases| - 1].hostnames)
  }

  lemma {:induction false} AbsorbAt(m: map<string, HostAlias>, aliases: seq<HostAlias>, ip: string)
    requires WellKeyed(m, AliasIP)
    ensures var own := WithKey(aliases, AliasIP, ip);
      && (ip in Absorb(m, aliases) <==> ip in m || own != [])
      && (ip in m ==> Absorb(m, aliases)[ip] == HostAlias(ip, Gather(m[ip].hostnames, own)))
      && (ip !in m && own != [] ==> Absorb(m, aliases)[ip] == HostAlias(ip, Folded(own)))
  {
    if aliases == [] {
      assert ip in m ==> AliasIP(m[ip]) == ip;
    } else {
      var front, last := aliases[..|aliases| - 1], aliases[|aliases| - 1];
      AbsorbAt(m, front, ip);
      AbsorbWellKeyed(m, front);
      if AliasIP(last) == ip {
        var own := WithKey(front, AliasIP, ip);
        assert WithKey(aliases, AliasIP, ip) == own + [last];
        assert (own + [last])[..|own|] == own;
      } else {
        assert WithKey(aliases, AliasIP, ip) == WithKey(front, AliasIP, ip);
      }
    }
  }

  /** Gathering onto a union is gathering first and taking the union with the rest afterwards. */
  lemma {:induction false} GatherUnion(names: seq<string>, more: seq<string>, aliases: seq<HostAlias>)
    ensures Gather(Union(names, more), aliases) == Union(names, Gather(more, aliases))
  {
    if aliases != [] {
      var front, last := aliases[..|aliases| - 1], aliases[|aliases| - 1].hostnames;
      GatherUnion(names, more, front);
      UnionAssociative(names, Gather(more, front), last);
    }
  }

  lemma {:induction false} GatherFolded(names: seq<string>, aliases: seq<HostAlias>)
    requires aliases != []
    ensures Gather(names, aliases) == Union(names, Folded(aliases))
  {
    var front, last := aliases[..|aliases| - 1], aliases[|aliases| - 1].hostnames;
    if front != [] {
      GatherFolded(names, front);
      UnionAssociative(names, Folded(front), last);
    }
  }

  lemma {:induction false} GatherConcat(names: seq<string>, a: seq<HostAlias>, b: seq<HostAlias>)
    ensures Gather(names, a + b) == Gather(Gather(names, a), b)
  {
    if b == [] {
      assert a + b == a;
    } else {
      GatherConcat(names, a, b[..|b| - 1]);
      assert (a + b)[..|a + b| - 1] == a + b[..|b| - 1];
    }
  }

  lemma {:induction false} FoldedConcat(a: seq<HostAlias>, b: seq<HostAlias>)
    requires a != []
    ensures Folded(a + b) == Gather(Folded(a), b)
  {
    if b == [] {
      assert a + b == a;
    } else {
      FoldedConcat(a, b[..|b| - 1]);
      assert (a + b)[..|a + b| - 1] == a + b[..|b| - 1];
    }
  }

  lemma {:induction false} GatherHasAll(names: seq<string>, aliases: seq<HostAlias>)
    ensures forall x | x in names :: x in Gather(names, aliases)
    ensures forall i, x | 0 <= i < |aliases| && x in aliases[i].hostnames :: x in Gather(names, aliases)
  {
    if aliases != [] {
      GatherHasAll(names, aliases[..|aliases| - 1]);
      UnionContents(Gather(names, aliases[..|aliases| - 1]), aliases[|aliases| - 1].hostnames);
    }
  }

  lemma {:induction false} GatherAbsorbs(names: seq<string>, aliases: seq<HostAlias>)
    requires forall i, x | 0 <= i < |aliases| && x in aliases[i].hostnames :: x in names
    ensures Gather(names, aliases) == names
  {
    if aliases != [] {
      GatherAbsorbs(names, aliases[..|aliases| - 1]);
      UnionAbsorbs(names, aliases[|aliases| - 1].hostnames);
    }
  }

  // ---------------------------------------------------------------- reapplication

  lemma IndexMerged(a: seq<HostAlias>, b: seq<HostAlias>)
    ensures IndexBy(MergeAliases(a, b), AliasIP) == Absorb(IndexBy(a, AliasIP), b)
  {
    IndexSound(a, AliasIP);
    AbsorbWellKeyed(IndexBy(a, AliasIP), b);
    IndexListing(Absorb(IndexBy(a, AliasIP), b), AliasIP);
  }

  /** Applying the same aliases again changes nothing. */
  lemma AliasesIdempotent(a: seq<HostAlias>, b: seq<HostAlias>)
    ensures MergeAliases(MergeAliases(a, b), b) == MergeAliases(a, b)
  {
    var A := IndexBy(a, AliasIP);
    IndexSound(a, AliasIP);
    var once := Absorb(A, b);
    AbsorbWellKeyed(A, b);
    IndexMerged(a, b);
    forall ip ensures ip in Absorb(once, b) <==> ip in once {
      AbsorbAt(A, b, ip);
      AbsorbAt(once, b, ip);
    }
    forall ip | ip in once ensures Absorb(once, b)[ip] == once[ip] {
      var own := WithKey(b, AliasIP, ip);
      AbsorbAt(A, b, ip);
      AbsorbAt(once, b, ip);
      if ip in A {
        GatherHasAll(A[ip].hostnames, own);
        GatherAbsorbs(once[ip].hostnames, own);
      } else {
        FoldedHasAll(own);
        GatherAbsorbs(once[ip].hostnames, own);
      }
    }
    assert Absorb(once, b) == once;
  }

  lemma FoldedHasAll(own: seq<HostAlias>)
    requires own != []
    ensures forall i, x | 0 <= i < |own| && x in own[i].hostnames :: x in Folded(own)
  {
    assert own == own[..1] + own[1..];
    FoldedConcat(own[..1], own[1..]);
    GatherHasAll(Folded(own[..1]), own[1..]);
    forall i, x | 0 <= i < |own| && x in own[i].hostnames ensures x in Folded(own) {
      if i > 0 { assert own[i] == own[1..][i - 1]; }
    }
  }

  // ---------------------------------------------------------------- associativity

  /** For every address of `b`, accumulating its entries leaves just the host names of the last one. */
  ghost predicate DuplicatesHarmless(b: seq<HostAlias>) {
    forall ip | WithKey(b, AliasIP, ip) != [] ::
      Folded(WithKey(b, AliasIP, ip)) == Last(WithKey(b, AliasIP, ip)).hostnames
  }

  lemma AccumulatedAndLast(b: seq<HostAlias>, ip: string)
    ensures var own := WithKey(b, AliasIP, ip);
      && (ip in Absorb(map[], b) <==> own != [])
      && (ip in IndexBy(b, AliasIP) <==> own != [])
      && (own != [] ==> Absorb(map[], b)[ip] == HostAlias(ip, Folded(own)))
      && (own != [] ==> IndexBy(b, AliasIP)[ip] == HostAlias(ip, Last(own).hostnames))
  {
    AbsorbAt(map[], b, ip);
    IndexLast(b, AliasIP, ip);
    IndexSound(b, AliasIP);
    if ip in IndexBy(b, AliasIP) { assert AliasIP(IndexBy(b, AliasIP)[ip]) == ip; }
  }

  /** With nothing to the left and nothing to the right, associativity compares exactly these two. */
  lemma HarmlessIff(b: seq<HostAlias>)
    ensures DuplicatesHarmless(b) <==> MergeAliases([], b) == MergeAliases(b, [])
  {
    hide Absorb, Folded, WithKey, IndexBy;
    var all, last := Absorb(map[], b), IndexBy(b, AliasIP);
    assert WellKeyed(last, AliasIP) by { IndexSound(b, AliasIP); }
    assert WellKeyed(all, AliasIP) by { AbsorbWellKeyed(map[], b); }
    assert (MergeAliases([], b) == MergeAliases(b, [])) <==> all == last by {
      AbsorbNothing(b);
      ListingInjective(all, last, AliasIP);
    }
    if DuplicatesHarmless(b) {
      forall ip ensures (ip in all <==> ip in last) && (ip in all ==> all[ip] == last[ip]) {
        AccumulatedAndLast(b, ip);
      }
      assert all == last;
    }
    if all == last {
      forall ip | WithKey(b, AliasIP, ip) != []
        ensures Folded(WithKey(b, AliasIP, ip)) == Last(WithKey(b, AliasIP, ip)).hostnames
      {
        AccumulatedAndLast(b, ip);
      }
    }
  }

  lemma AbsorbNothing(b: seq<HostAlias>)
    ensures Absorb(IndexBy(b, AliasIP), []) == IndexBy(b, AliasIP)
    ensures IndexBy<HostAlias>([], AliasIP) == map[]
  {
  }

  lemma AssociativeAt(a: seq<HostAlias>, b: seq<HostAlias>, c: seq<HostAlias>, ip: string)
    requires DuplicatesHarmless(b)
    ensures var A, BC := IndexBy(a, AliasIP), Absorb(IndexBy(b, AliasIP), c);
            var left, right := Absorb(A, b + c), Absorb(A, Listing(BC));
      && (ip in left <==> ip in right)
      && (ip in left ==> left[ip] == right[ip])
  {
    var A, B := IndexBy(a, AliasIP), IndexBy(b, AliasIP);
    var BC := Absorb(B, c);
    IndexSound(a, AliasIP);
    IndexSound(b, AliasIP);
    AbsorbWellKeyed(B, c);
    AbsorbAt(A, b + c, ip);
    AbsorbAt(A, Listing(BC), ip);
    AbsorbAt(B, c, ip);
    ListedOnce(BC, ip);
    WithKeyConcat(b, c, AliasIP, ip);
    IndexLast(b, AliasIP, ip);
    var fromB, fromC := WithKey(b, AliasIP, ip), WithKey(c, AliasIP, ip);
    assert fromB == [] ==> fromB + fromC == fromC;
    if fromB != [] {
      FoldedConcat(fromB, fromC);
      if ip in A {
        GatherConcat(A[ip].hostnames, fromB, fromC);
        GatherFolded(A[ip].hostnames, fromB);
        GatherUnion(A[ip].hostnames, Folded(fromB), fromC);
      }
    } else if fromC != [] && ip in A {
      GatherFolded(A[ip].hostnames, fromC);
    }
    if ip in BC && ip in A {
      assert Gather(A[ip].hostnames, [BC[ip]]) == Union(A[ip].hostnames, BC[ip].hostnames) by {
        assert [BC[ip]][..0] == [];
      }
    }
  }

  /** A listing has one entry per key. */
  lemma ListedOnce(m: map<string, HostAlias>, ip: string)
    requires WellKeyed(m, AliasIP)
    ensures WithKey(Listing(m), AliasIP, ip) == if ip in m then [m[ip]] else []
  {
    var ks := SortedKeys(m.Keys);
    SortedKeysEnumerate(m.Keys);
    AlongOnce(ks, m, ip);
  }

  lemma {:induction false} AlongOnce(ks: seq<string>, m: map<string, HostAlias>, ip: string)
    requires WellKeyed(m, AliasIP) && forall k | k in ks :: k in m
    requires forall i, j | 0 <= i < j < |ks| :: ks[i] != ks[j]
    ensures WithKey(Along(ks, m), AliasIP, ip) == if ip in ks then [m[ip]] else []
  {
    if ks != [] {
      var front, last := ks[..|ks| - 1], ks[|ks| - 1];
      assert ks == front + [last];
      AlongOnce(front, m, ip);
      assert Along(ks, m)[..|ks| - 1] == Along(front, m);
      assert AliasIP(m[last]) == last;
    }
  }

  lemma AliasesAssociate(a: seq<HostAlias>, b: seq<HostAlias>, c: seq<HostAlias>)
    requires DuplicatesHarmless(b)
    ensures MergeAliases(MergeAliases(a, b), c) == MergeAliases(a, MergeAliases(b, c))
  {
    hide Absorb, IndexBy, DuplicatesHarmless, Listing;
    var A, BC := IndexBy(a, AliasIP), Absorb(IndexBy(b, AliasIP), c);
    IndexMerged(a, b);
    AbsorbConcat(A, b, c);
    forall ip ensures (ip in Absorb(A, b + c) <==> ip in Absorb(A, Listing(BC)))
      && (ip in Absorb(A, b + c) ==> Absorb(A, b + c)[ip] == Absorb(A, Listing(BC))[ip])
    {
      AssociativeAt(a, b, c, ip);
    }
    assert Absorb(A, b + c) == Absorb(A, Listing(BC));
  }

  /** Merging associates around `b`, whatever stands left and right, exactly when its duplicates are harmless. */
  lemma AliasesAssociativeIff(b: seq<HostAlias>)
    ensures (forall a, c :: MergeAliases(MergeAliases(a, b), c) == MergeAliases(a, MergeAliases(b, c)))
        <==> DuplicatesHarmless(b)
  {
    if DuplicatesHarmless(b) {
      forall a, c ensures MergeAliases(MergeAliases(a, b), c) == MergeAliases(a, MergeAliases(b, c)) {
        AliasesAssociate(a, b, c);
      }
    } else {
      assert MergeAliases(MergeAliases([], b), []) != MergeAliases([], MergeAliases(b, [])) by {
        HarmlessIff(b);
        MergedWithNothing([], b);
        MergedOntoNothing(b, []);
      }
    }
  }

  lemma MergedWithNothing(a: seq<HostAlias>, b: seq<HostAlias>)
    ensures MergeAliases(MergeAliases(a, b), []) == MergeAliases(a, b)
  {
    IndexMerged(a, b);
  }

  /** A merged list has no duplicates left, so laying it over nothing keeps it. */
  lemma MergedOntoNothing(a: seq<HostAlias>, b: seq<HostAlias>)
    ensures MergeAliases([], MergeAliases(a, b)) == MergeAliases(a, b)
  {
    var m := Absorb(IndexBy(a, AliasIP), b);
    IndexSound(a, AliasIP);
    AbsorbWellKeyed(IndexBy(a, AliasIP), b);
    forall ip ensures (ip in Absorb(map[], Listing(m)) <==> ip in m)
      && (ip in m ==> Absorb(map[], Listing(m))[ip] == m[ip])
    {
      AbsorbAt(map[], Listing(m), ip);
      ListedOnce(m, ip);
      if ip in m { assert AliasIP(m[ip]) == ip; }
    }
    assert Absorb(map[], Listing(m)) == m;
  }

  /** Unique addresses are harmless. */
  lemma UniqueHarmless(b: seq<HostAlias>)
    requires DistinctKeys(b, AliasIP)
    ensures DuplicatesHarmless(b)
  {
    forall ip | WithKey(b, AliasIP, ip) != []
      ensures Folded(WithKey(b, AliasIP, ip)) == Last(WithKey(b, AliasIP, ip)).hostnames
    {
      DistinctSingle(b, ip);
    }
  }

  lemma {:induction false} DistinctSingle(b: seq<HostAlias>, ip: string)
    requires DistinctKeys(b, AliasIP)
    ensures |WithKey(b, AliasIP, ip)| <= 1
    ensures WithKey(b, AliasIP, ip) != [] ==> exists i :: 0 <= i < |b| && AliasIP(b[i]) == ip
  {
    if b != [] {
      DistinctSingle(b[..|b| - 1], ip);
    }
  }

  /** Two aliases of one address that name different hosts are not harmless: the merge does not associate. */
  lemma DuplicatesCanHarm(x: HostAlias, y: HostAlias, name: string)
    requires x.ip == y.ip && name in x.hostnames && name !in y.hostnames
    ensures !DuplicatesHarmless([x, y])
  {
    var own := WithKey([x, y], AliasIP, x.ip);
    assert own == [x, y] by {
      assert [x, y][..1] == [x] && [x][..0] == [];
      assert WithKey([x], AliasIP, x.ip) == [x];
    }
    FoldedHasAll(own);
    assert own[0] == x && Last(own) == y;
  }
}
