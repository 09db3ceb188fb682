/** The server list `buildStatefulsetCluster` prints, and the leader name `CheckNacos` reads back out of an entry. */
module ServerList {
  import opened CustomResource

  // ---------------------------------------------------------------- printing

  function Decimal(n: nat): string {
    if n < 10 then ["0123456789"[n]] else Decimal(n / 10) + ["0123456789"[n % 10]]
  }

  const NACOS_PORT := "8848"

  function PodName(name: string, i: nat): string { name + "-" + Decimal(i) }

  function HeadlessName(name: string): string { name + "-headless" }

  function Host(name: string, namespace: string, domain: string, i: nat): string {
    PodName(name, i) + "." + HeadlessName(name) + "." + namespace + "." + "svc" + "." + domain
  }

  function Entry(name: string, namespace: string, domain: string, i: nat): string {
    Host(name, namespace, domain, i) + ":" + NACOS_PORT
  }

  function Entries(name: string, namespace: string, domain: string, n: nat): (r: seq<string>)
    ensures |r| == n && forall i | 0 <= i < n :: r[i] == Entry(name, namespace, domain, i)
  {
    seq(n, i requires 0 <= i < n => Entry(name, namespace, domain, i))
  }

  function Joined(parts: seq<string>, sep: string): string {
    if parts == [] then ""
    else if |parts| == 1 then parts[0]
    else Joined(parts[..|parts| - 1], sep) + sep + parts[|parts| - 1]
  }

  /** The last non-empty DOMAIN_NAME wins. */
  function DomainOf(env: seq<(string, string)>): string {
    if env == [] then "cluster.local"
    else
      var (name, value) := env[|env| - 1];
      if name == "DOMAIN_NAME" && value != "" then value else DomainOf(env[..|env| - 1])
  }

  method ReadDomain(env: seq<(string, string)>) returns (domain: string)
    ensures domain == DomainOf(env)
  {
    domain := "cluster.local";
    for i := 0 to |env|
      invariant domain == DomainOf(env[..i])
    {
      assert env[..i + 1][..i] == env[..i];
      if env[i].0 == "DOMAIN_NAME" && env[i].1 != "" {
        domain := env[i].1;
      }
    }
    assert env[..|env|] == env;
  }

  /** Each turn appends an entry and a space; cutting off the last space needs one to be there. */
  method PrintServers(name: string, namespace: string, domain: string, replicas: int) returns (r: Outcome<string>)
    ensures r == if replicas >= 1 then Returned(Joined(Entries(name, namespace, domain, replicas), " "))
                 else Panicked(OtherPanic)
  {
    var service := "";
    var i := 0;
    while i < replicas
      invariant 0 <= i && (replicas >= 0 ==> i <= replicas) && (replicas < 0 ==> i == 0)
      invariant service == if i == 0 then "" else Joined(Entries(name, namespace, domain, i), " ") + " "
    {
      service := service + Entry(name, namespace, domain, i) + " ";
      assert Entries(name, namespace, domain, i + 1)[..i] == Entries(name, namespace, domain, i);
      i := i + 1;
    }
    if |service| == 0 {
      return Panicked(OtherPanic);
    }
    r := Returned(service[0..|service| - 1]);
  }

  // ---------------------------------------------------------------- splitting

  /** `strings.Split` on one character. */
  function Split(s: string, sep: char): (r: seq<string>)
    ensures r != []
  {
    if s == [] then [""]
    else if s[0] == sep then [""] + Split(s[1..], sep)
    else
      var rest := Split(s[1..], sep);
      [[s[0]] + rest[0]] + rest[1..]
  }

  /** `strings.Index` on one character. */
  function Index(s: string, c: char): int {
    if s == [] then -1
    else if s[0] == c then 0
    else
      var i := Index(s[1..], c);
      if i < 0 then -1 else i + 1
  }

  lemma {:induction false} SplitNext(a: string, b: string, sep: char)
    requires sep !in a
    ensures Split(a + [sep] + b, sep) == [a] + Split(b, sep)
  {
    var s := a + [sep] + b;
    if a == [] {
      assert s[1..] == b;
    } else {
      SplitNext(a[1..], b, sep);
      assert s[1..] == a[1..] + [sep] + b;
      assert [a[0]] + a[1..] == a;
    }
  }

  lemma {:induction false} SplitNone(a: string, sep: char)
    requires sep !in a
    ensures Split(a, sep) == [a]
  {
    if a != [] {
      SplitNone(a[1..], sep);
      assert [a[0]] + a[1..] == a;
    }
  }

  lemma {:induction false} SplitConcat(a: string, b: string, sep: char)
    requires sep !in b
    ensures Split(a + [sep] + b, sep) == Split(a, sep) + [b]
  {
    var s := a + [sep] + b;
    if a == [] {
      assert s[1..] == b;
      SplitNone(b, sep);
    } else {
      SplitConcat(a[1..], b, sep);
      assert s[1..] == a[1..] + [sep] + b;
    }
  }

  /** The first piece is what stands before the first separator. */
  lemma {:induction false} SplitHead(s: string, sep: char)
    ensures var h := Split(s, sep)[0];
      h <= s && sep !in h && (|h| < |s| ==> s[|h|] == sep)
  {
    if s != [] && s[0] != sep {
      SplitHead(s[1..], sep);
    }
  }

  lemma {:induction false} IndexFirst(s: string, c: char)
    ensures Index(s, c) < 0 <==> c !in s
    ensures Index(s, c) >= 0 ==> Index(s, c) < |s| && s[Index(s, c)] == c && c !in s[..Index(s, c)]
  {
    if s != [] && s[0] != c {
      IndexFirst(s[1..], c);
      var i := Index(s[1..], c);
      if i >= 0 { assert s[..i + 1] == [s[0]] + s[1..][..i]; }
    }
  }

  // ---------------------------------------------------------------- the round trip

  lemma {:induction false} SplitJoined(parts: seq<string>, sep: char)
    requires parts != [] && forall i | 0 <= i < |parts| :: sep !in parts[i]
    ensures Split(Joined(parts, [sep]), sep) == parts
  {
    var front, last := parts[..|parts| - 1], parts[|parts| - 1];
    if |parts| == 1 {
      SplitNone(parts[0], sep);
    } else {
      SplitJoined(front, sep);
      SplitConcat(Joined(front, [sep]), last, sep);
      assert parts == front + [last];
    }
  }

  lemma {:induction false} DecimalDigits(n: nat)
    ensures forall c | c in Decimal(n) :: '0' <= c <= '9'
    ensures Decimal(n) != []
  {
    if n >= 10 { DecimalDigits(n / 10); }
  }

  lemma {:induction false} DecimalInjective(m: nat, n: nat)
    requires Decimal(m) == Decimal(n)
    ensures m == n
  {
    DecimalDigits(m / 10);
    DecimalDigits(n / 10);
    if m >= 10 && n >= 10 {
      var a, b := Decimal(m), Decimal(n);
      assert a[..|a| - 1] == Decimal(m / 10) && b[..|b| - 1] == Decimal(n / 10);
      assert a[|a| - 1] == b[|b| - 1];
      DecimalInjective(m / 10, n / 10);
    }
  }

  lemma SameFront(a: string, b: string, rest: string)
    requires a + rest == b + rest
    ensures a == b
  {
    assert |a + rest| == |b + rest|;
    assert a == (a + rest)[..|a|] && b == (b + rest)[..|b|];
  }

  lemma SameBack(a: string, b: string, front: string)
    requires front + a == front + b
    ensures a == b
  {
    assert a == (front + a)[|front|..] && b == (front + b)[|front|..];
  }

  lemma EntryOfPod(name: string, namespace: string, domain: string, i: nat)
    ensures Entry(name, namespace, domain, i)
         == PodName(name, i)
             + ("." + HeadlessName(name) + "." + namespace + "." + "svc" + "." + domain + ":" + NACOS_PORT)
  {
  }

  /** Different pods have different entries. */
  lemma EntriesDistinct(name: string, namespace: string, domain: string, i: nat, j: nat)
    requires Entry(name, namespace, domain, i) == Entry(name, namespace, domain, j)
    ensures i == j
  {
    hide Entry;
    EntryOfPod(name, namespace, domain, i);
    EntryOfPod(name, namespace, domain, j);
    SameFront(PodName(name, i), PodName(name, j),
              "." + HeadlessName(name) + "." + namespace + "." + "svc" + "." + domain + ":" + NACOS_PORT);
    SameBack(Decimal(i), Decimal(j), name + "-");
    DecimalInjective(i, j);
  }

  ghost predicate NoSpace(s: string) { ' ' !in s }

  /** Splitting the printed list on spaces gives back one entry per replica, all different. */
  lemma ServersRoundTrip(name: string, namespace: string, domain: string, replicas: nat)
    requires replicas >= 1 && NoSpace(name) && NoSpace(namespace) && NoSpace(domain)
    ensures var pieces := Split(Joined(Entries(name, namespace, domain, replicas), " "), ' ');
      && pieces == Entries(name, namespace, domain, replicas)
      && |pieces| == replicas
      && forall i, j | 0 <= i < j < replicas :: pieces[i] != pieces[j]
  {
    var entries := Entries(name, namespace, domain, replicas);
    forall i | 0 <= i < replicas ensures ' ' !in entries[i] {
      DecimalDigits(i);
    }
    SplitJoined(entries, ' ');
    forall i, j | 0 <= i < j < replicas ensures entries[i] != entries[j] {
      if entries[i] == entries[j] { EntriesDistinct(name, namespace, domain, i, j); }
    }
  }

  // ---------------------------------------------------------------- reading a leader

  /** The pod a reported leader is taken to be. */
  function LeaderName(leader: string): string {
    if Index(leader, '.') > 0 then Split(leader, '.')[0] else Split(leader, ':')[0]
  }

  /** A printed host, with any port behind it, is read as its own pod exactly when the name has no dot. */
  lemma LeaderReadBackIff(name: string, namespace: string, domain: string, i: nat, port: string)
    ensures LeaderName(Host(name, namespace, domain, i) + ":" + port) == PodName(name, i) <==> '.' !in name
  {
    var pod := PodName(name, i);
    var rest := HeadlessName(name) + "." + namespace + "." + "svc" + "." + domain + ":" + port;
    var leader := Host(name, namespace, domain, i) + ":" + port;
    assert leader == pod + "." + rest;
    assert leader[|pod|] == '.' && leader[..|pod|] == pod;
    DecimalDigits(i);
    IndexFirst(leader, '.');
    SplitHead(leader, '.');
    SplitHead(leader, ':');
    if '.' !in name {
      NoDotInPod(name, i);
      FirstDot(leader, pod);
    } else {
      assert '.' in pod;
      LeaderMisread(leader, pod);
    }
  }

  lemma NoDotInPod(name: string, i: nat)
    requires '.' !in name
    ensures '.' !in PodName(name, i)
  {
    DecimalDigits(i);
  }

  lemma FirstDot(leader: string, pod: string)
    requires pod != [] && |pod| < |leader| && leader[..|pod|] == pod && leader[|pod|] == '.' && '.' !in pod
    ensures LeaderName(leader) == pod
  {
    IndexFirst(leader, '.');
    SplitHead(leader, '.');
  }

  lemma LeaderMisread(leader: string, pod: string)
    requires |pod| < |leader| && leader[..|pod|] == pod && leader[|pod|] == '.' && '.' in pod
    ensures LeaderName(leader) != pod
  {
    IndexFirst(leader, '.');
    SplitHead(leader, '.');
    SplitHead(leader, ':');
  }

  /**
    What is read out of a reported leader, told without splitting: all before the first dot, if one stands behind a
    first character; otherwise all before the first colon, or the whole.
   */
  lemma LeaderNameTells(leader: string)
    ensures forall k | 0 < k < |leader| && leader[k] == '.' && '.' !in leader[..k] :: LeaderName(leader) == leader[..k]
    ensures ('.' !in leader || leader[0] == '.') ==>
      && (forall k | 0 <= k < |leader| && leader[k] == ':' && ':' !in leader[..k] :: LeaderName(leader) == leader[..k])
      && (':' !in leader ==> LeaderName(leader) == leader)
  {
    IndexFirst(leader, '.');
    forall k | 0 < k < |leader| && leader[k] == '.' && '.' !in leader[..k] ensures LeaderName(leader) == leader[..k] {
      assert forall j | 0 <= j < k :: leader[j] == leader[..k][j];
      SplitAt(leader, k, '.');
    }
    if '.' !in leader || leader[0] == '.' {
      forall k | 0 <= k < |leader| && leader[k] == ':' && ':' !in leader[..k]
          ensures LeaderName(leader) == leader[..k] {
        SplitAt(leader, k, ':');
      }
      if ':' !in leader {
        SplitNone(leader, ':');
      }
    }
  }

  lemma SplitAt(s: string, k: nat, sep: char)
    requires k < |s| && s[k] == sep && sep !in s[..k]
    ensures Split(s, sep)[0] == s[..k]
  {
    assert s == s[..k] + [sep] + s[k + 1..];
    SplitNext(s[..k], s[k + 1..], sep);
  }

  // ---------------------------------------------------------------- the printed host, read back part by part

  /** The number a string of digits stands for. */
  function Number(s: string): nat {
    if s == [] then 0
    else 10 * Number(s[..|s| - 1]) + if '0' <= s[|s| - 1] <= '9' then s[|s| - 1] as nat - '0' as nat else 0
  }

  lemma DigitReads(d: nat)
    requires d < 10
    ensures var c := "0123456789"[d]; '0' <= c <= '9' && c as nat - '0' as nat == d
  {
  }

  /** Reading a printed number gives the number. */
  lemma {:induction false} DecimalReads(n: nat)
    ensures Number(Decimal(n)) == n
  {
    DigitReads(n % 10);
    if n < 10 {
      assert Decimal(n)[..0] == [];
    } else {
      DecimalReads(n / 10);
      assert Decimal(n)[..|Decimal(n)| - 1] == Decimal(n / 10);
    }
  }

  /** Split on dots, a host is the pod, the headless service, the namespace, "svc" and the domain, in this order. */
  lemma HostReads(name: string, namespace: string, domain: string, i: nat)
    requires '.' !in name && '.' !in namespace
    ensures Split(Host(name, namespace, domain, i), '.')
         == [PodName(name, i), name + "-headless", namespace, "svc"] + Split(domain, '.')
  {
    NoDotInPod(name, i);
    var svc := "svc" + "." + domain;
    var rest := namespace + "." + svc;
    var tail := HeadlessName(name) + "." + rest;
    assert Host(name, namespace, domain, i) == PodName(name, i) + "." + tail;
    SplitNext(PodName(name, i), tail, '.');
    SplitNext(HeadlessName(name), rest, '.');
    SplitNext(namespace, svc, '.');
    SplitNext("svc", domain, '.');
  }

  /** And an entry is a host and port 8848, the pod a name and its number. */
  lemma EntryReads(name: string, namespace: string, domain: string, i: nat)
    requires ':' !in name && ':' !in namespace && ':' !in domain
    ensures Split(Entry(name, namespace, domain, i), ':') == [Host(name, namespace, domain, i), "8848"]
    ensures name + "-" <= PodName(name, i) && Number(PodName(name, i)[|name| + 1..]) == i
  {
    DecimalDigits(i);
    DecimalReads(i);
    assert PodName(name, i)[|name| + 1..] == Decimal(i);
    SplitNext(Host(name, namespace, domain, i), NACOS_PORT, ':');
    SplitNone(NACOS_PORT, ':');
  }

  // ---------------------------------------------------------------- the domain

  predicate NamesDomain(e: (string, string)) { e.0 == "DOMAIN_NAME" && e.1 != "" }

  /** The domain is the value of the last entry that names one, or the cluster's own. */
  lemma {:induction false} DomainTells(env: seq<(string, string)>)
    ensures forall i | 0 <= i < |env| && NamesDomain(env[i]) && forall j | i < j < |env| :: !NamesDomain(env[j]) ::
      DomainOf(env) == env[i].1
    ensures (forall i | 0 <= i < |env| :: !NamesDomain(env[i])) ==> DomainOf(env) == "cluster.local"
  {
    if env != [] {
      DomainTells(env[..|env| - 1]);
      assert forall i | 0 <= i < |env| - 1 :: env[..|env| - 1][i] == env[i];
      assert NamesDomain(env[|env| - 1]) ==> DomainOf(env) == env[|env| - 1].1;
    }
  }

  /** The pieces with `b` appended to the last. */
  function LastWith(pieces: seq<string>, b: string): seq<string>
    requires pieces != []
  {
    pieces[..|pieces| - 1] + [pieces[|pieces| - 1] + b]
  }

  lemma LastWithFirst(first: string, rest: seq<string>, b: string)
    requires rest != []
    ensures LastWith([first] + rest, b) == [first] + LastWith(rest, b)
  {
  }

  lemma LastWithHead(c: char, pieces: seq<string>, b: string)
    requires pieces != []
    ensures LastWith([[c] + pieces[0]] + pieces[1..], b) == [[c] + LastWith(pieces, b)[0]] + LastWith(pieces, b)[1..]
  {
    if |pieces| == 1 {
      assert ([c] + pieces[0]) + b == [c] + (pieces[0] + b);
    } else {
      assert pieces == [pieces[0]] + pieces[1..];
      LastWithFirst(pieces[0], pieces[1..], b);
      LastWithFirst([c] + pieces[0], pieces[1..], b);
    }
  }

  /** What is appended without a separator goes to the last piece. */
  lemma {:induction false} SplitAppend(a: string, b: string, sep: char)
    requires sep !in b
    ensures Split(a + b, sep) == LastWith(Split(a, sep), b)
  {
    hide LastWith;
    if a == [] {
      SplitNone(b, sep);
      OnePiece(b);
      assert a + b == b;
    } else {
      SplitAppend(a[1..], b, sep);
      assert (a + b)[1..] == a[1..] + b && (a + b)[0] == a[0];
      LastWithFirst("", Split(a[1..], sep), b);
      LastWithHead(a[0], Split(a[1..], sep), b);
    }
  }

  lemma OnePiece(b: string)
    ensures LastWith([""], b) == [b]
  {
    assert "" + b == b;
  }

  lemma SplitMore(front: string, piece: string, sep: char, pieces: seq<string>)
    requires sep !in piece && Split(front, sep) == pieces + [""]
    ensures Split(front + piece + [sep], sep) == pieces + [piece] + [""]
  {
    SplitAppend(front, piece, sep);
    assert (pieces + [""])[..|pieces|] == pieces && "" + piece == piece;
    SplitConcat(front + piece, "", sep);
    assert front + piece + [sep] + "" == front + piece + [sep];
  }
}
