/** `CreateOrUpdateStatefulSet` against a versioned store: compare, then create, update, delete or leave alone. */
module StatefulSetStore {
  import opened PodModel
  import opened CustomResource

  datatype ClaimTemplate = ClaimTemplate(resources: Blob, storageClass: Option<string>)

  datatype StatefulSet = StatefulSet(replicas: Option<int>, containers: seq<Container>, claims: seq<ClaimTemplate>,
      version: nat)

  // ---------------------------------------------------------------- the comparison

  function FoldChar(c: char): char { if 'A' <= c <= 'Z' then c - 'A' + 'a' else c }

  /** `strings.EqualFold` on ASCII letters. */
  predicate EqualFold(a: string, b: string) {
    |a| == |b| && forall i | 0 <= i < |a| :: FoldChar(a[i]) == FoldChar(b[i])
  }

  datatype Decision = NoChange | Update | Delete

  /** As many templates, and the first ones, if any, ask for the same resources. */
  predicate AlikeButForClass(o: seq<ClaimTemplate>, n: seq<ClaimTemplate>) {
    |o| == |n| && (o != [] ==> o[0].resources == n[0].resources)
  }

  /** Both first templates name a storage class. */
  predicate ClassesNamed(o: seq<ClaimTemplate>, n: seq<ClaimTemplate>) {
    o != [] && n != [] && o[0].storageClass.Some? && n[0].storageClass.Some?
  }

  /** The claims agree on all the comparison looks at: later templates never count, nor does the case of a class. */
  predicate SameClaims(o: seq<ClaimTemplate>, n: seq<ClaimTemplate>) {
    && AlikeButForClass(o, n)
    && (o != [] ==> ClassesNamed(o, n) && EqualFold(o[0].storageClass.value, n[0].storageClass.value))
  }

  /** Whether the claims differ; a fault exactly when a class has to be read that is not there. */
  method CheckVolumeClaimTemplates(old_: StatefulSet, new_: StatefulSet) returns (r: Outcome<bool>)
    ensures var o, n := old_.claims, new_.claims;
      && (r == Returned(false) <==> SameClaims(o, n))
      && (r == Returned(true) <==> !SameClaims(o, n) && !(AlikeButForClass(o, n) && !ClassesNamed(o, n)))
      && (r == Panicked(OtherPanic) <==> o != [] && AlikeButForClass(o, n) && !ClassesNamed(o, n))
    ensures r == ClaimsDiffer(old_.claims, new_.claims)
  {
    if |old_.claims| == 0 && |new_.claims| == 0 {
      return Returned(false);
    }
    if |old_.claims| != |new_.claims| {
      return Returned(true);
    }
    var o, n := old_.claims[0], new_.claims[0];
    if o.resources != n.resources {
      return Returned(true);
    }
    if o.storageClass.None? || n.storageClass.None? {
      return Panicked(OtherPanic);
    }
    return Returned(!EqualFold(o.storageClass.value, n.storageClass.value));
  }

  function ClaimsDiffer(o: seq<ClaimTemplate>, n: seq<ClaimTemplate>): Outcome<bool> {
    if |o| != |n| then Returned(true)
    else if o == [] then Returned(false)
    else if o[0].resources != n[0].resources then Returned(true)
    else if o[0].storageClass.None? || n[0].storageClass.None? then Panicked(OtherPanic)
    else Returned(!EqualFold(o[0].storageClass.value, n[0].storageClass.value))
  }

  method CheckSts(old_: StatefulSet, new_: StatefulSet) returns (r: Outcome<Decision>)
    ensures r == Compare(old_, new_)
  {
    if |old_.containers| == 0 || |new_.containers| == 0 {
      return Panicked(OtherPanic);
    }
    var o, n := old_.containers[0], new_.containers[0];
    var claims :- CheckVolumeClaimTemplates(old_, new_);
    if claims {
      return Returned(Delete);
    }
    if o.resources != n.resources {
      return Returned(Update);
    }
    if old_.replicas.None? || new_.replicas.None? {
      return Panicked(OtherPanic);
    }
    return Returned(if old_.replicas != new_.replicas || o.env != n.env then Update else NoChange);
  }

  function Compare(o: StatefulSet, n: StatefulSet): Outcome<Decision> {
    if o.containers == [] || n.containers == [] then Panicked(OtherPanic)
    else
      var claims :- ClaimsDiffer(o.claims, n.claims);
      if claims then Returned(Delete)
      else if o.containers[0].resources != n.containers[0].resources then Returned(Update)
      else if o.replicas.None? || n.replicas.None? then Panicked(OtherPanic)
      else if o.replicas != n.replicas || o.containers[0].env != n.containers[0].env then Returned(Update)
      else Returned(NoChange)
  }

  // ---------------------------------------------------------------- the call

  datatype Write = Creates | Updates | Deletes

  /** Which of the requests of one call the API server fails. */
  datatype Faults = Faults(get: bool, write: bool)

  /** `next` is a version no object has had yet. */
  datatype Store = Store(stored: Option<StatefulSet>, next: nat)

  /** How a call ends, true for no error; the store it leaves; and the write request it issued, if any. */
  datatype Effect = Effect(result: Outcome<bool>, store: Store, write: Option<Write>)

  function Upsert(s: Store, desired: StatefulSet, f: Faults): Effect {
    if f.get then Effect(Returned(false), s, None)
    else if s.stored.None? then
      if f.write then Effect(Returned(false), s, Some(Creates))
      else Effect(Returned(true), Store(Some(desired.(version := s.next)), s.next + 1), Some(Creates))
    else
      match Compare(s.stored.value, desired)
      case Panicked(p) => Effect(Panicked(p), s, None)
      case Returned(NoChange) => Effect(Returned(true), s, None)
      case Returned(Update) =>
        if f.write then Effect(Returned(false), s, Some(Updates))
        else Effect(Returned(true), Store(Some(desired.(version := s.next)), s.next + 1), Some(Updates))
      case Returned(Delete) =>
        if f.write then Effect(Returned(false), s, Some(Deletes))
        else Effect(Returned(true), s.(stored := None), Some(Deletes))
  }

  /** The API server's side: a write of an existing object needs its current version. */
  class StatefulSetApi {
    var store: Store
    ghost var lastWrite: Option<Write>

    constructor (store: Store)
      ensures this.store == store
    {
      this.store := store;
    }

    method Create(desired: StatefulSet, f: Faults) returns (ok: bool)
      modifies this
      ensures lastWrite == Some(Creates)
      ensures ok <==> !f.write && old(store.stored).None?
      ensures store == if ok then Store(Some(desired.(version := old(store.next))), old(store.next) + 1) else old(store)
    {
      lastWrite := Some(Creates);
      ok := !f.write && store.stored.None?;
      if ok {
        store := Store(Some(desired.(version := store.next)), store.next + 1);
      }
    }

    method Replace(desired: StatefulSet, f: Faults) returns (ok: bool)
      modifies this
      ensures lastWrite == Some(Updates)
      ensures ok <==> !f.write && old(store.stored).Some? && old(store.stored).value.version == desired.version
      ensures store == if ok then Store(Some(desired.(version := old(store.next))), old(store.next) + 1) else old(store)
    {
      lastWrite := Some(Updates);
      ok := !f.write && store.stored.Some? && store.stored.value.version == desired.version;
      if ok {
        store := Store(Some(desired.(version := store.next)), store.next + 1);
      }
    }

    method Remove(f: Faults) returns (ok: bool)
      modifies this
      ensures lastWrite == Some(Deletes)
      ensures ok <==> !f.write && old(store.stored).Some?
      ensures store == if ok then old(store).(stored := None) else old(store)
    {
      lastWrite := Some(Deletes);
      ok := !f.write && store.stored.Some?;
      if ok {
        store := store.(stored := None);
      }
    }

    method CreateOrUpdateStatefulSet(statefulSet: StatefulSet, f: Faults) returns (r: Outcome<bool>)
      requires lastWrite.None?
      modifies this
      ensures Effect(r, store, lastWrite) == Upsert(old(store), statefulSet, f)
    {
      if f.get {
        return Returned(false);
      }
      var stored := store.stored;
      if stored.None? {
        var ok := Create(statefulSet, f);
        return Returned(ok);
      }
      var decision :- CheckSts(stored.value, statefulSet);
      match decision {
        case Update =>
          var ok := Replace(statefulSet.(version := stored.value.version), f);
          return Returned(ok);
        case Delete =>
          var ok := Remove(f);
          return Returned(ok);
        case NoChange =>
          return Returned(true);
      }
    }
  }

  // ---------------------------------------------------------------- convergence

  /** Stored and desired agree on everything the comparison looks at. */
  ghost predicate Agrees(o: StatefulSet, n: StatefulSet) {
    && o.containers != [] && n.containers != []
    && o.replicas.Some? && o.replicas == n.replicas
    && o.containers[0].env == n.containers[0].env
    && o.containers[0].resources == n.containers[0].resources
    && SameClaims(o.claims, n.claims)
  }

  lemma CompareIff(o: StatefulSet, n: StatefulSet)
    ensures Compare(o, n) == Returned(NoChange) <==> Agrees(o, n)
  {
  }

  /** An object that can be compared with another one without a fault. */
  predicate Usable(d: StatefulSet) {
    d.containers != [] && d.replicas.Some? && (d.claims != [] ==> d.claims[0].storageClass.Some?)
  }

  /** An object is found equal to itself exactly when it is usable; otherwise comparing it is a runtime fault. */
  lemma SelfCompareIff(d: StatefulSet)
    ensures Compare(d, d) == if Usable(d) then Returned(NoChange) else Panicked(OtherPanic)
  {
  }

  /**
    The guard of the runtime fault, for a usable desired object: the stored one has no container to compare; or it
    has a claim without a class, and the claims are otherwise alike; or it has no replicas, and nothing else differs.
   */
  ghost predicate Stuck(o: StatefulSet, n: StatefulSet)
    requires Usable(n)
  {
    || o.containers == []
    || (o.claims != [] && o.claims[0].storageClass.None? && AlikeButForClass(o.claims, n.claims))
    || (o.replicas.None? && o.containers[0].resources == n.containers[0].resources && SameClaims(o.claims, n.claims))
  }

  lemma StuckIff(o: StatefulSet, n: StatefulSet)
    requires Usable(n)
    ensures Compare(o, n).Panicked? <==> Stuck(o, n)
    ensures Compare(o, n).Panicked? ==> Compare(o, n) == Panicked(OtherPanic)
  {
  }

  /** Nothing stored stands in the way of the desired object. */
  ghost predicate Reaches(s: Store, desired: StatefulSet) {
    Usable(desired) && (s.stored.Some? ==> !Stuck(s.stored.value, desired))
  }

  /** Successful calls still to go. */
  function Remaining(s: Store, desired: StatefulSet): nat {
    if s.stored.None? then 1
    else
      match Compare(s.stored.value, desired)
      case Returned(NoChange) => 0
      case Returned(Delete) => 2
      case _ => 1
  }

  /** A successful call brings the store one step nearer; a failed one, a fault included, leaves it where it was. */
  lemma CallProgress(s: Store, desired: StatefulSet, f: Faults)
    requires Usable(desired)
    ensures var e := Upsert(s, desired, f);
      && (Reaches(s, desired) ==> e.result.Returned? && Reaches(e.store, desired))
      && (e.result != Returned(true) ==> e.store == s)
      && (e.result == Returned(true) && Remaining(s, desired) > 0 ==>
          Remaining(e.store, desired) == Remaining(s, desired) - 1)
      && (Remaining(s, desired) == 0 ==> e.store == s && e.write.None?)
  {
    hide Stuck;
    SelfCompareIff(desired);
    StuckIff(desired.(version := s.next), desired);
    assert Compare(desired.(version := s.next), desired) == Compare(desired, desired);
    if s.stored.Some? {
      StuckIff(s.stored.value, desired);
    }
  }

  /** No update is ever issued while the claims differ in number, or in resources or class of the first. */
  lemma NoUpdateWhileClaimsDiffer(s: Store, desired: StatefulSet, f: Faults)
    requires s.stored.Some? && !SameClaims(s.stored.value.claims, desired.claims)
    ensures Upsert(s, desired, f).write != Some(Updates)
  {
  }

  /**
    The request of a call that gets to read and does not fault, and what a successful one leaves: a missing object is
    created; one with other claims is deleted; one that differs in anything else compared is replaced, under a new
    version; one that agrees is left alone.
   */
  lemma WriteIff(s: Store, desired: StatefulSet, f: Faults)
    requires !f.get && (s.stored.Some? ==> Compare(s.stored.value, desired).Returned?)
    ensures var e := Upsert(s, desired, f);
      && (e.write == Some(Creates) <==> s.stored.None?)
      && (e.write == Some(Deletes) <==> s.stored.Some? && !SameClaims(s.stored.value.claims, desired.claims))
      && (e.write == Some(Updates) <==>
            && s.stored.Some? && SameClaims(s.stored.value.claims, desired.claims)
            && !Agrees(s.stored.value, desired))
      && (e.write == None <==> s.stored.Some? && Agrees(s.stored.value, desired))
      && e.result == Returned(e.write.None? || !f.write)
      && e.store == (if e.write.None? || f.write then s
                     else if e.write == Some(Deletes) then Store(None, s.next)
                     else Store(Some(desired.(version := s.next)), s.next + 1))
  {
  }

  /** A call that cannot read, or whose comparison faults, requests nothing. */
  lemma NoWriteIff(s: Store, desired: StatefulSet, f: Faults)
    requires f.get || (s.stored.Some? && Compare(s.stored.value, desired).Panicked?)
    ensures var e := Upsert(s, desired, f);
      e.write.None? && e.store == s && e.result == if f.get then Returned(false) else Panicked(OtherPanic)
  {
  }

  function StoreAfter(s: Store, desired: StatefulSet, faults: seq<Faults>): Store {
    if faults == [] then s
    else Upsert(StoreAfter(s, desired, faults[..|faults| - 1]), desired, faults[|faults| - 1]).store
  }

  /** How many of these calls returned without error. */
  function Successes(s: Store, desired: StatefulSet, faults: seq<Faults>): nat {
    if faults == [] then 0
    else
      var before := faults[..|faults| - 1];
      Successes(s, desired, before) +
      if Upsert(StoreAfter(s, desired, before), desired, faults[|faults| - 1]).result == Returned(true) then 1 else 0
  }

  lemma {:induction false} RunProgress(s: Store, desired: StatefulSet, faults: seq<Faults>)
    requires Usable(desired)
    ensures var left := Remaining(StoreAfter(s, desired, faults), desired);
      && left + Successes(s, desired, faults) >= Remaining(s, desired)
      && (left == 0 || left + Successes(s, desired, faults) == Remaining(s, desired))
  {
    hide Reaches, Remaining, Upsert;
    if faults != [] {
      var before := faults[..|faults| - 1];
      RunProgress(s, desired, before);
      CallProgress(StoreAfter(s, desired, before), desired, faults[|faults| - 1]);
    }
  }

  /**
    Whatever was stored and whatever calls fail in between: once two have succeeded, stored and desired agree,
    and every later call, failing or not, writes nothing.
   */
  lemma ConvergesInTwo(s: Store, desired: StatefulSet, faults: seq<Faults>, later: Faults)
    requires Usable(desired) && Successes(s, desired, faults) >= 2
    ensures var t := StoreAfter(s, desired, faults);
      && t.stored.Some? && Agrees(t.stored.value, desired)
      && Upsert(t, desired, later).write.None? && Upsert(t, desired, later).store == t
  {
    RunProgress(s, desired, faults);
    var t := StoreAfter(s, desired, faults);
    assert Remaining(t, desired) == 0;
    CompareIff(t.stored.value, desired);
    CallProgress(t, desired, later);
  }

  const NO_FAULTS := Faults(false, false)

  ghost predicate Settled(s: Store, desired: StatefulSet) {
    s.stored.Some? && Agrees(s.stored.value, desired)
  }

  /** Two calls without failures settle the store if nothing stored stands in the way. */
  lemma TwoCallsSettle(s: Store, desired: StatefulSet)
    requires Reaches(s, desired)
    ensures Settled(StoreAfter(s, desired, [NO_FAULTS, NO_FAULTS]), desired)
  {
    hide Agrees, Stuck;
    var one := Upsert(s, desired, NO_FAULTS).store;
    var two := Upsert(one, desired, NO_FAULTS).store;
    var once := [NO_FAULTS];
    assert [NO_FAULTS, NO_FAULTS][..1] == once && once[..0] == [];
    assert StoreAfter(s, desired, once) == Upsert(StoreAfter(s, desired, []), desired, NO_FAULTS).store;
    assert StoreAfter(s, desired, [NO_FAULTS, NO_FAULTS]) == two;
    CallProgress(s, desired, NO_FAULTS);
    CallProgress(one, desired, NO_FAULTS);
    assert Remaining(two, desired) == 0;
    CompareIff(two.stored.value, desired);
  }

  /**
    Some run of calls makes stored and desired agree exactly when the desired object is usable and the stored one,
    if any, is not stuck; then two calls are enough.
   */
  lemma CanSettleIff(s: Store, desired: StatefulSet)
    ensures (exists faults :: Settled(StoreAfter(s, desired, faults), desired)) <==> Reaches(s, desired)
  {
    if Reaches(s, desired) {
      TwoCallsSettle(s, desired);
    } else if Usable(desired) {
      StuckIff(s.stored.value, desired);
      CompareIff(s.stored.value, desired);
      forall faults ensures !Settled(StoreAfter(s, desired, faults), desired) {
        StaysPut(s, desired, faults);
      }
    }
  }

  /** Over every run: while the claims agree the object is never lost; scaling or a new environment only updates it. */
  lemma {:induction false} NeverLost(s: Store, desired: StatefulSet, faults: seq<Faults>)
    requires s.stored.Some? && SameClaims(s.stored.value.claims, desired.claims)
    ensures StoreAfter(s, desired, faults).stored.Some?
    ensures SameClaims(StoreAfter(s, desired, faults).stored.value.claims, desired.claims)
  {
    if faults != [] {
      hide Compare, Agrees;
      var before, f := faults[..|faults| - 1], faults[|faults| - 1];
      NeverLost(s, desired, before);
      var t := StoreAfter(s, desired, before);
      if f.get || Compare(t.stored.value, desired).Panicked? {
        NoWriteIff(t, desired, f);
      } else {
        WriteIff(t, desired, f);
      }
      SameWithItself(t.stored.value.claims, desired.claims);
    }
  }

  lemma SameWithItself(o: seq<ClaimTemplate>, n: seq<ClaimTemplate>)
    requires SameClaims(o, n)
    ensures SameClaims(n, n)
  {
  }

  /** `strings.EqualFold` on ASCII: equal up to the case of letters. */
  lemma EqualFoldIff(a: string, b: string)
    ensures EqualFold(a, b) <==>
      |a| == |b| && forall i | 0 <= i < |a| ::
        || a[i] == b[i]
        || ('A' <= a[i] <= 'Z' && b[i] as int == a[i] as int + 32)
        || ('A' <= b[i] <= 'Z' && a[i] as int == b[i] as int + 32)
  {
    if |a| == |b| {
      forall i | 0 <= i < |a| ensures FoldChar(a[i]) == FoldChar(b[i]) <==>
        || a[i] == b[i]
        || ('A' <= a[i] <= 'Z' && b[i] as int == a[i] as int + 32)
        || ('A' <= b[i] <= 'Z' && a[i] as int == b[i] as int + 32)
      {
        FoldCharIff(a[i], b[i]);
      }
    }
  }

  lemma FoldCharIff(c: char, d: char)
    ensures FoldChar(c) == FoldChar(d) <==>
      || c == d
      || ('A' <= c <= 'Z' && d as int == c as int + 32)
      || ('A' <= d <= 'Z' && c as int == d as int + 32)
  {
    assert 'a' as int == 'A' as int + 32;
  }

  // ---------------------------------------------------------------- when it does not converge

  lemma {:induction false} StaysPut(s: Store, desired: StatefulSet, faults: seq<Faults>)
    requires s.stored.Some?
    requires Compare(s.stored.value, desired) == Returned(NoChange) || Compare(s.stored.value, desired).Panicked?
    ensures StoreAfter(s, desired, faults) == s
  {
    if faults != [] {
      StaysPut(s, desired, faults[..|faults| - 1]);
    }
  }

  /** A stuck store never moves, and every call that gets to read it faults. */
  lemma StuckForever(s: Store, desired: StatefulSet, faults: seq<Faults>, f: Faults)
    requires Usable(desired) && s.stored.Some? && Stuck(s.stored.value, desired) && !f.get
    ensures StoreAfter(s, desired, faults) == s
    ensures Upsert(StoreAfter(s, desired, faults), desired, f).result == Panicked(OtherPanic)
  {
    StuckIff(s.stored.value, desired);
    StaysPut(s, desired, faults);
  }

  /**
    Created without a storage class and given one later: the stored claim still has none, and from then on
    every call faults, although the object now desired is usable.
   */
  lemma ClassSetLater(first: StatefulSet, class_: string, next: nat, faults: seq<Faults>, f: Faults)
    requires first.containers != [] && first.replicas.Some? && first.claims != []
    requires first.claims[0].storageClass.None? && !f.get
    ensures var created := Upsert(Store(None, next), first, NO_FAULTS).store;
            var desired := first.(claims := first.claims[0 := first.claims[0].(storageClass := Some(class_))]);
      && Usable(desired)
      && StoreAfter(created, desired, faults) == created
      && Upsert(StoreAfter(created, desired, faults), desired, f).result == Panicked(OtherPanic)
  {
    var desired := first.(claims := first.claims[0 := first.claims[0].(storageClass := Some(class_))]);
    StuckForever(Upsert(Store(None, next), first, NO_FAULTS).store, desired, faults, f);
  }

  /**
    A desired object that is not usable, say one with a claim and no storage class, is created once and
    then faults every later call; a usable one is left alone.
   */
  lemma SecondCallFaultsIff(desired: StatefulSet, next: nat, later: seq<Faults>, f: Faults)
    requires !f.get
    ensures var created := Upsert(Store(None, next), desired, NO_FAULTS);
      && created.result == Returned(true)
      && StoreAfter(created.store, desired, later) == created.store
      && (Upsert(created.store, desired, f).result == Panicked(OtherPanic) <==> !Usable(desired))
  {
    var created := Upsert(Store(None, next), desired, NO_FAULTS).store;
    SelfCompareIff(desired);
    assert Compare(created.stored.value, desired) == Compare(desired, desired);
    StaysPut(created, desired, later);
  }
}
