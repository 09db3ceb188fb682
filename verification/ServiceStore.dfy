/** `CreateOrUpdateService` calls interleaved request by request against a version-checked store. */
module ServiceStore {
  import opened PodModel

  /** `uid` tells an object from a later one of the same name; `body` is everything else the caller chose. */
  datatype Service = Service(version: nat, uid: nat, clusterIP: string, body: Blob)

  /** `next` is a version, and a uid, that no object has had yet. */
  datatype Server = Server(stored: Option<Service>, next: nat)

  /** What the environment settles about one write: whether it fails, and the address a new service without one gets. */
  datatype Chance = Chance(fails: bool, address: string)

  function Posted(s: Server, desired: Service, luck: Chance): Server {
    if luck.fails || s.stored.Some? then s
    else
      var address := if desired.clusterIP == "" then luck.address else desired.clusterIP;
      Server(Some(Service(s.next, s.next, address, desired.body)), s.next + 1)
  }

  /** The server replaces every field the caller sent, the address included, if the version is the current one. */
  function Replaced(s: Server, desired: Service, luck: Chance): Server {
    if luck.fails || s.stored.None? || s.stored.value.version != desired.version then s
    else Server(Some(desired.(version := s.next, uid := s.stored.value.uid)), s.next + 1)
  }

  // ---------------------------------------------------------------- runs of interleaved calls

  datatype Kind = CreateOrUpdate | CreateIfNotExists

  /** `read` holds, for each call between its two requests, what the first one returned. */
  datatype State = State(server: Server, read: map<nat, Option<Service>>)

  datatype Step =
    | Get(call: nat)
    | Put(call: nat, kind: Kind, desired: Service, luck: Chance)
    | Delete

  /** The write a call sends once it has read `seen`. */
  function Written(s: Server, seen: Option<Service>, kind: Kind, desired: Service, luck: Chance): Server {
    match seen
    case None => Posted(s, desired, luck)
    case Some(old_) =>
      if kind.CreateIfNotExists? then s
      else Replaced(s, desired.(version := old_.version, clusterIP := old_.clusterIP), luck)
  }

  function Next(st: State, step: Step): State {
    match step
    case Get(c) => st.(read := st.read[c := st.server.stored])
    case Put(c, kind, desired, luck) =>
      if c !in st.read then st
      else State(Written(st.server, st.read[c], kind, desired, luck), st.read - {c})
    case Delete => st.(server := st.server.(stored := None))
  }

  function Run(st: State, steps: seq<Step>): State
    decreases |steps|
  {
    if steps == [] then st else Run(Next(st, steps[0]), steps[1..])
  }

  predicate Issued(s: Service, next: nat) {
    s.version < next && s.uid < next
  }

  predicate StillTrue(seen: Option<Service>, s: Server) {
    seen.Some? ==>
      Issued(seen.value, s.next)
          && (s.stored.Some? && s.stored.value.version == seen.value.version ==> s.stored == seen)
  }

  predicate OthersOnly(steps: seq<Step>, c: nat) {
    forall s | s in steps :: s.Delete? || s.call != c
  }

  lemma {:induction false} ReadKept(st: State, steps: seq<Step>, c: nat)
    requires OthersOnly(steps, c)
    ensures c in Run(st, steps).read <==> c in st.read
    ensures c in st.read ==> Run(st, steps).read[c] == st.read[c]
    decreases |steps|
  {
    if steps != [] {
      assert OthersOnly(steps[1..], c);
      assert steps[0] in steps;
      ReadKept(Next(st, steps[0]), steps[1..], c);
    }
  }

  /** A version names one content: whoever read the current version read the current object. */
  predicate Sound(st: State) {
    && (st.server.stored.Some? ==> Issued(st.server.stored.value, st.server.next))
    && forall c | c in st.read :: StillTrue(st.read[c], st.server)
  }

  lemma {:induction false} SoundRun(st: State, steps: seq<Step>)
    requires Sound(st)
    ensures Sound(Run(st, steps)) && Run(st, steps).server.next >= st.server.next
    decreases |steps|
  {
    if steps != [] {
      SoundRun(Next(st, steps[0]), steps[1..]);
    }
  }

  lemma {:induction false} RunOn(st: State, first: seq<Step>, then_: seq<Step>)
    ensures Run(st, first + then_) == Run(Run(st, first), then_)
    decreases |first|
  {
    if first == [] {
      assert first + then_ == then_;
    } else {
      assert (first + then_)[1..] == first[1..] + then_;
      RunOn(Next(st, first[0]), first[1..], then_);
    }
  }

  // ---------------------------------------------------------------- what every run keeps

  /** In every run a write takes effect exactly when the store still holds what the call read. */
  lemma WriteLandsIff(start: State, steps: seq<Step>, c: nat, kind: Kind, desired: Service, luck: Chance)
    requires Sound(start)
    requires c in Run(start, steps).read
    ensures var before := Run(start, steps);
            var seen, after := before.read[c], Next(before, Put(c, kind, desired, luck)).server;
            && (after != before.server <==>
                !luck.fails && before.server.stored == seen && (seen.None? || kind.CreateOrUpdate?))
            && (after != before.server && seen.Some? ==>
                after.stored == Some(Service(before.server.next, seen.value.uid, seen.value.clusterIP, desired.body)))
  {
    SoundRun(start, steps);
    var before := Run(start, steps);
    assert StillTrue(before.read[c], before.server);
  }

  predicate AddressIs(s: Server, uid: nat, address: string) {
    s.stored.Some? && s.stored.value.uid == uid ==> s.stored.value.clusterIP == address
  }

  lemma {:induction false} AddressStays(st: State, steps: seq<Step>, uid: nat, address: string)
    requires Sound(st) && uid < st.server.next && AddressIs(st.server, uid, address)
    ensures AddressIs(Run(st, steps).server, uid, address)
    decreases |steps|
  {
    if steps != [] {
      if steps[0].Put? && steps[0].call in st.read {
        assert StillTrue(st.read[steps[0].call], st.server);
      }
      AddressStays(Next(st, steps[0]), steps[1..], uid, address);
    }
  }

  /** Whatever calls and deletions interleave, one object has one address for as long as it exists. */
  lemma AddressNeverChanges(start: State, first: seq<Step>, then_: seq<Step>)
    requires Sound(start)
    ensures var one, two := Run(start, first).server.stored, Run(start, first + then_).server.stored;
            one.Some? && two.Some? && one.value.uid == two.value.uid ==> one.value.clusterIP == two.value.clusterIP
  {
    SoundRun(start, first);
    RunOn(start, first, then_);
    var middle := Run(start, first);
    if middle.server.stored.Some? {
      AddressStays(middle, then_, middle.server.stored.value.uid, middle.server.stored.value.clusterIP);
    }
  }

  predicate Gone(s: Server, version: nat) {
    version < s.next && (s.stored.Some? ==> s.stored.value.version != version)
  }

  lemma {:induction false} VersionsNeverReturn(st: State, steps: seq<Step>, version: nat)
    requires Gone(st.server, version)
    ensures Gone(Run(st, steps).server, version)
    decreases |steps|
  {
    if steps != [] {
      VersionsNeverReturn(Next(st, steps[0]), steps[1..], version);
    }
  }

  /** Of two calls that read the same object only one can replace it: no write is silently undone by a stale one. */
  lemma OneReplacementPerRead(st: State, mine: Step, meantime: seq<Step>, theirs: Step)
    requires Sound(st) && mine.Put? && theirs.Put? && mine.call in st.read
    requires st.read[mine.call].Some? && Next(st, mine).server != st.server
    requires theirs.call in Run(Next(st, mine), meantime).read
             && Run(Next(st, mine), meantime).read[theirs.call] == st.read[mine.call]
    ensures var later := Run(Next(st, mine), meantime); Next(later, theirs).server == later.server
  {
    VersionsNeverReturn(Next(st, mine), meantime, st.read[mine.call].value.version);
  }

  /** And only a deletion ends an object: until one arrives the object and its address are the ones first seen. */
  lemma {:induction false} KeptUntilDeleted(st: State, steps: seq<Step>)
    requires Sound(st) && st.server.stored.Some? && Delete !in steps
    ensures var now := Run(st, steps).server.stored;
            now.Some? && now.value.uid == st.server.stored.value.uid
                && now.value.clusterIP == st.server.stored.value.clusterIP
    decreases |steps|
  {
    if steps != [] {
      if steps[0].Put? && steps[0].call in st.read {
        assert StillTrue(st.read[steps[0].call], st.server);
      }
      KeptUntilDeleted(Next(st, steps[0]), steps[1..]);
    }
  }

  // ---------------------------------------------------------------- the calls

  /** The object the operator builds and passes; the call overwrites its version and address. */
  class ServiceObject {
    var version: nat
    var clusterIP: string
    var body: Blob

    constructor (clusterIP: string, body: Blob)
      ensures this.clusterIP == clusterIP && this.body == body && version == 0
    {
      this.version, this.clusterIP, this.body := 0, clusterIP, body;
    }

    function Value(): Service reads this {
      Service(version, 0, clusterIP, body)
    }
  }

  datatype Answer = Done | NotFound | Failed

  /** One call from its first request to its last, with other clients' requests in between. */
  function WholeCall(c: nat, kind: Kind, desired: Service, meantime: seq<Step>, luck: Chance): seq<Step> {
    [Get(c)] + meantime + [Put(c, kind, desired, luck)]
  }

  lemma WholeCallRuns(st: State, c: nat, kind: Kind, desired: Service, meantime: seq<Step>, luck: Chance)
    requires OthersOnly(meantime, c)
    ensures var s := Run(Next(st, Get(c)), meantime);
            Run(st, WholeCall(c, kind, desired, meantime, luck))
              == State(Written(s.server, st.server.stored, kind, desired, luck), s.read - {c})
  {
    var read := Next(st, Get(c));
    var put := Put(c, kind, desired, luck);
    RunOn(st, [Get(c)], meantime + [put]);
    RunOn(read, meantime, [put]);
    assert WholeCall(c, kind, desired, meantime, luck) == [Get(c)] + (meantime + [put]);
    ReadKept(read, meantime, c);
    var s := Run(read, meantime);
    assert Run(s, [put]) == Run(Next(s, put), []);
    assert Run(st, [Get(c)]) == Run(read, []);
  }

  /** The same call again and again, with nobody else in between and nothing failing. */
  function Repeated(st: State, c: nat, kind: Kind, desired: Service, address: string, n: nat): State {
    if n == 0 then st
    else Run(Repeated(st, c, kind, desired, address, n - 1), WholeCall(c, kind, desired, [], Chance(false, address)))
  }

  lemma OneCall(st: State, c: nat, kind: Kind, desired: Service, address: string)
    requires Sound(st)
    ensures var after, was := Run(st, WholeCall(c, kind, desired, [], Chance(false, address))), st.server.stored;
      && Sound(after)
      && (was.Some? && kind.CreateIfNotExists? ==> after.server == st.server)
      && (was.Some? && kind.CreateOrUpdate? ==>
            after.server == Server(Some(Service(st.server.next, was.value.uid, was.value.clusterIP, desired.body)),
                                   st.server.next + 1))
      && (was.None? ==>
            && after.server.next == st.server.next + 1 && after.server.stored.Some?
            && after.server.stored.value.version == st.server.next && after.server.stored.value.body == desired.body
            && after.server.stored.value.clusterIP == if desired.clusterIP != "" then desired.clusterIP else address)
  {
    WholeCallRuns(st, c, kind, desired, [], Chance(false, address));
    SoundRun(st, WholeCall(c, kind, desired, [], Chance(false, address)));
    assert Run(Next(st, Get(c)), []) == Next(st, Get(c));
  }

  /**
    `CreateOrUpdateService` has the desired body from the first call on but never comes to rest: every call writes, so
    no version is ever the last. The object and its address stay.
   */
  lemma {:induction false} EveryCallWrites(st: State, c: nat, desired: Service, address: string, n: nat)
    requires Sound(st) && n > 0
    ensures var after, was := Repeated(st, c, CreateOrUpdate, desired, address, n).server, st.server.stored;
      && Sound(Repeated(st, c, CreateOrUpdate, desired, address, n))
      && after.next == st.server.next + n && after.stored.Some?
      && after.stored.value.version == st.server.next + n - 1 && after.stored.value.body == desired.body
      && (was.Some? ==> after.stored.value.uid == was.value.uid && after.stored.value.clusterIP == was.value.clusterIP)
  {
    if n > 1 {
      EveryCallWrites(st, c, desired, address, n - 1);
    }
    OneCall(Repeated(st, c, CreateOrUpdate, desired, address, n - 1), c, CreateOrUpdate, desired, address);
  }

  /** `CreateIfNotExistsService` rests once there is an object, whatever its body. */
  lemma {:induction false} ExistingIsLeft(st: State, c: nat, desired: Service, address: string, n: nat)
    requires Sound(st) && st.server.stored.Some?
    ensures Repeated(st, c, CreateIfNotExists, desired, address, n).server == st.server
    ensures Sound(Repeated(st, c, CreateIfNotExists, desired, address, n))
  {
    if n > 0 {
      ExistingIsLeft(st, c, desired, address, n - 1);
      OneCall(Repeated(st, c, CreateIfNotExists, desired, address, n - 1), c, CreateIfNotExists, desired, address);
    }
  }

  class ServiceApi {
    var server: Server
    var read: map<nat, Option<Service>>

    constructor (server: Server)
      ensures this.server == server && read == map[]
    {
      this.server, read := server, map[];
    }

    function St(): State reads this {
      State(server, read)
    }

    method GetService(me: nat, fails: bool) returns (a: Answer, found: Option<Service>)
      modifies this`read
      ensures a == if fails then Failed else if server.stored.None? then NotFound else Done
      ensures found == if a.Done? then server.stored else None
      ensures St() == if fails then old(St()) else Next(old(St()), Get(me))
    {
      if fails {
        return Failed, None;
      }
      read := read[me := server.stored];
      a, found := if server.stored.None? then NotFound else Done, server.stored;
    }

    method CreateService(service: ServiceObject, luck: Chance) returns (a: Answer)
      modifies this`server
      ensures server == Posted(old(server), service.Value(), luck)
      ensures a == if server == old(server) then Failed else Done
    {
      if luck.fails || server.stored.Some? {
        return Failed;
      }
      var address := if service.clusterIP == "" then luck.address else service.clusterIP;
      server := Server(Some(Service(server.next, server.next, address, service.body)), server.next + 1);
      return Done;
    }

    method UpdateService(service: ServiceObject, luck: Chance) returns (a: Answer)
      modifies this`server
      ensures server == Replaced(old(server), service.Value(), luck)
      ensures a == if server == old(server) then Failed else Done
    {
      if luck.fails || server.stored.None? || server.stored.value.version != service.version {
        return Failed;
      }
      server := Server(Some(Service(server.next, server.stored.value.uid, service.clusterIP, service.body)),
          server.next + 1);
      return Done;
    }

    /** Other clients' requests reach the server. */
    method Meanwhile(steps: seq<Step>)
      modifies this
      ensures St() == Run(old(St()), steps)
    {
      var st := Run(St(), steps);
      server, read := st.server, st.read;
    }

    /**
      The object passed in ends with the version and address of the stored one; the call, as a run of the state
      machine.
     */
    method CreateOrUpdateService(me: nat, service: ServiceObject, getFails: bool, meantime: seq<Step>, luck: Chance)
        returns (a: Answer)
      requires OthersOnly(meantime, me)
      modifies this, service
      ensures getFails ==> a == Failed && St() == old(St()) && service.Value() == old(service.Value())
      ensures !getFails ==> St() == Run(old(St()), WholeCall(me, CreateOrUpdate, old(service.Value()), meantime, luck))
      ensures !getFails ==> (a == Done <==> server != Run(Next(old(St()), Get(me)), meantime).server)
      ensures a == Done || a == Failed
      ensures !getFails ==>
                service.Value() == match old(server.stored)
                                   case None => old(service.Value())
                                   case Some(s) => old(service.Value()).(version := s.version, clusterIP := s.clusterIP)
    {
      WholeCallRuns(St(), me, CreateOrUpdate, service.Value(), meantime, luck);
      var got, stored := GetService(me, getFails);
      if got == Failed {
        return Failed;
      }
      Meanwhile(meantime);
      if got == NotFound {
        a := CreateService(service, luck);
      } else {
        service.version := stored.value.version;
        service.clusterIP := stored.value.clusterIP;
        a := UpdateService(service, luck);
      }
      read := read - {me};
    }

    method CreateIfNotExistsService(me: nat, service: ServiceObject, getFails: bool, meantime: seq<Step>, luck: Chance)
        returns (a: Answer)
      requires OthersOnly(meantime, me)
      modifies this
      ensures getFails ==> a == Failed && St() == old(St())
      ensures !getFails ==> St() == Run(old(St()), WholeCall(me, CreateIfNotExists, service.Value(), meantime, luck))
      ensures !getFails ==>
          (a == Done <==> old(server.stored).Some? || server != Run(Next(old(St()), Get(me)), meantime).server)
      ensures a == Done || a == Failed
    {
      WholeCallRuns(St(), me, CreateIfNotExists, service.Value(), meantime, luck);
      var got, stored := GetService(me, getFails);
      if got == Failed {
        return Failed;
      }
      Meanwhile(meantime);
      if got == NotFound {
        a := CreateService(service, luck);
      } else {
        a := Done;
      }
      read := read - {me};
    }
  }
}
