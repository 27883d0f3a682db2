/**
 The DNS view of the state (src/dns.rs).  `norm` is the normalisation of names; most of
 what follows does not depend on what it does.  Stored addresses always parse, being
 numbers here.
 */
module Dns {
  import opened Text
  import opened Model
  import opened Base
  import opened Addresses
  import opened ControlState
  import opened Handlers
  import opened Runs
  import opened NodeRuns
  import opened Names
  import opened DnsNames

  datatype IpAddr = V4(n: nat) | V6(n: nat)

  type Records = map<string, seq<IpAddr>>

  datatype DnsSnapshot = DnsSnapshot(records: Records, domains: set<string>)

  // ---------------------------------------------------------------- the snapshot

  /** Nodes that have records. */
  predicate Served(s: State, k: string) {
    k in s.nodes && s.nodes[k].revokedAt == None && s.nodes[k].approved && s.nodes[k].networkId in s.networks
  }

  function DomainOf(s: State, k: string): (domain: string)
    requires Served(s, k)
  {
    s.networks[s.nodes[k].networkId].dnsDomain
  }

  function DnsName(norm: string -> string, s: State, k: string): (name: string)
    requires Served(s, k)
  {
    norm(s.nodes[k].name + "." + DomainOf(s, k))
  }

  function AddressesOf(node: Node): (r: seq<IpAddr>) {
    [V4(node.ipv4), V6(node.ipv6)]
  }

  ghost predicate RecordFrom(norm: string -> string, s: State, k: string, records: Records, name: string) {
    Served(s, k) && DnsName(norm, s, k) == name && name in records && records[name] == AddressesOf(s.nodes[k])
  }

  /** The records are those of these nodes; of nodes with one full name, one of them. */
  ghost predicate RecordsOf(norm: string -> string, s: State, done: set<string>, records: Records) {
    && (forall k <- done | Served(s, k) :: DnsName(norm, s, k) in records)
    && (forall name <- records :: exists k :: k in done && RecordFrom(norm, s, k, records, name))
  }

  function DomainName(norm: string -> string): (name: Network -> string) {
    (n: Network) => norm(n.dnsDomain)
  }

  /** The domains are those of these networks, under whatever way of naming them. */
  ghost predicate DomainsOf(networks: Networks, name: Network -> string, done: set<string>, domains: set<string>) {
    && (forall k <- done | k in networks :: name(networks[k]) in domains)
    && (forall d <- domains :: exists k :: k in done && k in networks && name(networks[k]) == d)
  }

  lemma AddDomain(networks: Networks, name: Network -> string, done: set<string>, k: string, domains: set<string>)
    requires DomainsOf(networks, name, done, domains) && k in networks
    ensures DomainsOf(networks, name, done + {k}, domains + {name(networks[k])})
  {
    forall d <- domains + {name(networks[k])}
      ensures exists j :: j in done + {k} && j in networks && name(networks[j]) == d
    {
      if d in domains {
        var j :| j in done && j in networks && name(networks[j]) == d;
        assert j in done + {k};
      } else {
        assert k in done + {k};
      }
    }
  }

  method CollectDomains(networks: Networks, name: Network -> string) returns (domains: set<string>)
    ensures DomainsOf(networks, name, networks.Keys, domains)
  {
    domains := {};
    var todo := networks.Keys;
    while todo != {}
      invariant todo <= networks.Keys
      invariant DomainsOf(networks, name, networks.Keys - todo, domains)
    {
      var k :| k in todo;
      AddDomain(networks, name, networks.Keys - todo, k, domains);
      domains := domains + {name(networks[k])};
      assert networks.Keys - (todo - {k}) == networks.Keys - todo + {k};
      todo := todo - {k};
    }
    assert networks.Keys - todo == networks.Keys;
  }

  lemma AddRecord(norm: string -> string, s: State, done: set<string>, k: string, records: Records)
    requires RecordsOf(norm, s, done, records) && Served(s, k)
    ensures RecordsOf(norm, s, done + {k}, records[DnsName(norm, s, k) := AddressesOf(s.nodes[k])])
  {
    var records' := records[DnsName(norm, s, k) := AddressesOf(s.nodes[k])];
    forall name <- records'
      ensures exists j :: j in done + {k} && RecordFrom(norm, s, j, records', name)
    {
      if name == DnsName(norm, s, k) {
        assert k in done + {k} && RecordFrom(norm, s, k, records', name);
      } else {
        var j :| j in done && RecordFrom(norm, s, j, records, name);
        assert j in done + {k} && RecordFrom(norm, s, j, records', name);
      }
    }
  }

  lemma SkipRecord(norm: string -> string, s: State, done: set<string>, k: string, records: Records)
    requires RecordsOf(norm, s, done, records) && !Served(s, k)
    ensures RecordsOf(norm, s, done + {k}, records)
  {
    forall name <- records
      ensures exists j :: j in done + {k} && RecordFrom(norm, s, j, records, name)
    {
      var j :| j in done && RecordFrom(norm, s, j, records, name);
      assert j in done + {k};
    }
  }

  method CollectRecords(norm: string -> string, s: State) returns (records: Records)
    ensures RecordsOf(norm, s, s.nodes.Keys, records)
  {
    records := map[];
    var todo := s.nodes.Keys;
    while todo != {}
      invariant todo <= s.nodes.Keys
      invariant RecordsOf(norm, s, s.nodes.Keys - todo, records)
    {
      var k :| k in todo;
      if Served(s, k) {
        AddRecord(norm, s, s.nodes.Keys - todo, k, records);
        records := records[DnsName(norm, s, k) := AddressesOf(s.nodes[k])];
      } else {
        SkipRecord(norm, s, s.nodes.Keys - todo, k, records);
      }
      assert s.nodes.Keys - (todo - {k}) == s.nodes.Keys - todo + {k};
      todo := todo - {k};
    }
    assert s.nodes.Keys - todo == s.nodes.Keys;
  }

  /** `snapshot`. */
  method Snapshot(norm: string -> string, s: State) returns (r: DnsSnapshot)
    ensures DomainsOf(s.networks, DomainName(norm), s.networks.Keys, r.domains)
    ensures RecordsOf(norm, s, s.nodes.Keys, r.records)
  {
    var domains := CollectDomains(s.networks, DomainName(norm));
    var records := CollectRecords(norm, s);
    r := DnsSnapshot(records, domains);
  }

  // ---------------------------------------------------------------- exactness

  ghost predicate DistinctNames(norm: string -> string, s: State) {
    forall j, k | Served(s, j) && Served(s, k) && j != k :: DnsName(norm, s, j) != DnsName(norm, s, k)
  }

  /** A served node's full name leads to exactly its two addresses. */
  ghost predicate Resolves(norm: string -> string, s: State, records: Records, k: string)
    requires Served(s, k)
  {
    DnsName(norm, s, k) in records && records[DnsName(norm, s, k)] == AddressesOf(s.nodes[k])
  }

  ghost predicate AllResolve(norm: string -> string, s: State, records: Records) {
    forall k | Served(s, k) :: Resolves(norm, s, records, k)
  }

  /**
   Whatever the order of iteration and the normalisation, every served node resolves to its
   own addresses, if and only if their full names are distinct; addresses are those of a
   safe state.
   */
  lemma ResolvesIffDistinct(norm: string -> string, s: State, records: Records)
    requires Safe(s) && RecordsOf(norm, s, s.nodes.Keys, records)
    ensures AllResolve(norm, s, records) <==> DistinctNames(norm, s)
  {
    if DistinctNames(norm, s) {
      forall k | Served(s, k)
        ensures Resolves(norm, s, records, k)
      {
        ResolvesItself(norm, s, records, k);
      }
    } else {
      var j, k :| Served(s, j) && Served(s, k) && j != k && DnsName(norm, s, j) == DnsName(norm, s, k);
      OneLoses(norm, s, records, j, k);
    }
  }

  lemma ResolvesItself(norm: string -> string, s: State, records: Records, k: string)
    requires DistinctNames(norm, s) && RecordsOf(norm, s, s.nodes.Keys, records) && Served(s, k)
    ensures Resolves(norm, s, records, k)
  {
    var j :| j in s.nodes.Keys && RecordFrom(norm, s, j, records, DnsName(norm, s, k));
  }

  /** Of two nodes with one full name one does not resolve. */
  lemma OneLoses(norm: string -> string, s: State, records: Records, j: string, k: string)
    requires Safe(s) && Served(s, j) && Served(s, k) && j != k && DnsName(norm, s, j) == DnsName(norm, s, k)
    ensures !Resolves(norm, s, records, j) || !Resolves(norm, s, records, k)
  {
    DifferentAddresses(s, j, k);
  }

  lemma DifferentAddresses(s: State, j: string, k: string)
    requires Safe(s) && j in s.nodes && k in s.nodes && j != k
    ensures AddressesOf(s.nodes[j]) != AddressesOf(s.nodes[k])
  {
    SafeMeansUnique(s, j, k);
    assert AddressesOf(s.nodes[j])[0] != AddressesOf(s.nodes[k])[0];
  }

  /** Then the records do not depend on the order of iteration. */
  lemma RecordsUnique(norm: string -> string, s: State, a: Records, b: Records)
    requires DistinctNames(norm, s) && RecordsOf(norm, s, s.nodes.Keys, a) && RecordsOf(norm, s, s.nodes.Keys, b)
    ensures a == b
  {
    forall name: string
      ensures name in a ==> name in b && b[name] == a[name]
      ensures name in b ==> name in a && a[name] == b[name]
    {
      if name in a {
        SameRecord(norm, s, a, b, name);
      }
      if name in b {
        SameRecord(norm, s, b, a, name);
      }
    }
  }

  lemma SameRecord(norm: string -> string, s: State, a: Records, b: Records, name: string)
    requires DistinctNames(norm, s) && RecordsOf(norm, s, s.nodes.Keys, a) && RecordsOf(norm, s, s.nodes.Keys, b)
    requires name in a
    ensures name in b && b[name] == a[name]
  {
    var j :| j in s.nodes.Keys && RecordFrom(norm, s, j, a, name);
    ResolvesItself(norm, s, b, j);
  }

  // ---------------------------------------------------------------- when full names are distinct

  /** Two names cannot run into each other: one network, separate domains, or different ones and dotless names. */
  predicate Distinguishable(s: State, j: string, k: string)
    requires Served(s, j) && Served(s, k)
  {
    || s.nodes[j].networkId == s.nodes[k].networkId
    || KeptApart(s.nodes[j].name, DomainOf(s, j), s.nodes[k].name, DomainOf(s, k))
  }

  /**
   Names and domains are ASCII, every domain leaves something after normalising, and names
   under different ones are distinguishable.
   */
  ghost predicate GoodDomains(s: State) {
    && (forall k | Served(s, k) :: Ascii(s.nodes[k].name) && Ascii(DomainOf(s, k)) && Tail(DomainOf(s, k)) != "")
    && (forall j, k | Served(s, j) && Served(s, k) :: Distinguishable(s, j, k))
  }

  lemma NameOf(lower: string -> string, s: State, k: string)
    requires LowersAscii(lower) && Served(s, k) && GoodDomains(s) && ProperNames(s.nodes)
    ensures DnsName(Normalizer(lower), s, k) == Lower(s.nodes[k].name + "." + Tail(DomainOf(s, k)))
  {
    assert ProperName(s.nodes[k]);
    ProperStart(s.nodes[k].name);
    FullName(s.nodes[k].name, DomainOf(s, k));
    AsciiFull(s.nodes[k].name, DomainOf(s, k));
  }

  lemma ProperStart(name: string)
    requires name != "" && Trim(name) == name
    ensures !IsWhitespace(name[0])
  {
  }

  lemma NamesDiffer(s: State, j: string, k: string)
    requires Served(s, j) && Served(s, k) && j != k && GoodDomains(s) && UniqueNames(s.nodes)
    ensures Lower(s.nodes[j].name + "." + Tail(DomainOf(s, j))) != Lower(s.nodes[k].name + "." + Tail(DomainOf(s, k)))
  {
    if s.nodes[j].networkId == s.nodes[k].networkId {
      assert !Clash(s.nodes[j], s.nodes[k]);
      SameDomain(s.nodes[j].name, s.nodes[k].name, Tail(DomainOf(s, j)));
    } else {
      assert Distinguishable(s, j, k);
      DifferentDomains(s.nodes[j].name, DomainOf(s, j), s.nodes[k].name, DomainOf(s, k));
    }
  }

  /** Unique node names under good domains make distinct full names. */
  lemma DistinctUnderGoodDomains(lower: string -> string, s: State)
    requires LowersAscii(lower) && GoodDomains(s) && ProperNames(s.nodes) && UniqueNames(s.nodes)
    ensures DistinctNames(Normalizer(lower), s)
  {
    forall j, k | Served(s, j) && Served(s, k) && j != k
      ensures DnsName(Normalizer(lower), s, j) != DnsName(Normalizer(lower), s, k)
    {
      NameOf(lower, s, j);
      NameOf(lower, s, k);
      NamesDiffer(s, j, k);
    }
  }

  lemma RunDistinct(lower: string -> string, b: Backend, states: seq<State>, actions: seq<Action>, n: nat)
    requires LowersAscii(lower) && Run(b, states, actions) && n <= |actions| && GoodDomains(states[n])
    requires Harmless(NodesOf(states), actions, n)
    ensures DistinctNames(Normalizer(lower), states[n])
  {
    NamesUniqueIff(b, states, actions, n);
    assert UniqueNames(NodesOf(states)[n]);
    DistinctUnderGoodDomains(lower, states[n]);
  }

  /** On a run that never revives a name that is taken, every state with good domains resolves exactly. */
  lemma RunResolves(lower: string -> string, b: Backend, states: seq<State>, actions: seq<Action>, n: nat,
                    records: Records)
    requires LowersAscii(lower) && Run(b, states, actions) && n <= |actions| && GoodDomains(states[n])
    requires Harmless(NodesOf(states), actions, n)
    requires RecordsOf(Normalizer(lower), states[n], states[n].nodes.Keys, records)
    ensures AllResolve(Normalizer(lower), states[n], records)
  {
    RunSafe(b, states, actions, n);
    RunDistinct(lower, b, states, actions, n);
    ResolvesIffDistinct(Normalizer(lower), states[n], records);
  }

  // ---------------------------------------------------------------- responses

  datatype QueryType = A | AAAA | ANY | Other

  datatype Query = Query(name: string, kind: QueryType)

  datatype ResponseCode = NoError | NXDomain | Refused

  datatype Answer = Answer(name: string, address: IpAddr)

  predicate Matches(kind: QueryType, address: IpAddr) {
    kind == ANY || (kind == A && address.V4?) || (kind == AAAA && address.V6?)
  }

  ghost predicate WithinAny(name: string, domains: set<string>) {
    exists d :: d in domains && Within(name, d)
  }

  /** `is_within_domains`. */
  method IsWithinDomains(name: string, domains: set<string>) returns (r: bool)
    ensures r <==> WithinAny(name, domains)
  {
    var todo := domains;
    r := false;
    while todo != {} && !r
      invariant todo <= domains
      invariant r <==> exists d :: d in domains - todo && Within(name, d)
      decreases |todo|
    {
      var d :| d in todo;
      r := Within(name, d);
      todo := todo - {d};
    }
  }

  /** What one query asks for. */
  function AnswersTo(norm: string -> string, records: Records, q: Query): (r: seq<Answer>) {
    if norm(q.name) !in records then [] else Selected(q, records[norm(q.name)])
  }

  function Selected(q: Query, addresses: seq<IpAddr>): (r: seq<Answer>) {
    if addresses == [] then [] else
    var front, last := Selected(q, addresses[..|addresses| - 1]), addresses[|addresses| - 1];
    if Matches(q.kind, last) then front + [Answer(q.name, last)] else front
  }

  function AllAnswers(norm: string -> string, records: Records, queries: seq<Query>): (r: seq<Answer>) {
    if queries == [] then [] else
    AllAnswers(norm, records, queries[..|queries| - 1]) + AnswersTo(norm, records, queries[|queries| - 1])
  }

  method AnswerQuery(norm: string -> string, records: Records, q: Query) returns (answers: seq<Answer>)
    ensures answers == AnswersTo(norm, records, q)
  {
    answers := [];
    if norm(q.name) in records {
      var addresses := records[norm(q.name)];
      for j := 0 to |addresses|
        invariant answers == Selected(q, addresses[..j])
      {
        assert addresses[..j + 1][..j] == addresses[..j];
        if Matches(q.kind, addresses[j]) {
          answers := answers + [Answer(q.name, addresses[j])];
        }
      }
      assert addresses[..|addresses|] == addresses;
    }
  }

  /** Some query among the first `n` is for a name within the domains. */
  ghost predicate AsksWithin(norm: string -> string, domains: set<string>, queries: seq<Query>, n: nat)
    requires n <= |queries|
  {
    exists i :: 0 <= i < n && WithinAny(norm(queries[i].name), domains)
  }

  /** `build_response`: the answers in order and the response code. */
  method BuildResponse(norm: string -> string, snapshot: DnsSnapshot, queries: seq<Query>)
    returns (answers: seq<Answer>, code: ResponseCode)
    ensures answers == AllAnswers(norm, snapshot.records, queries)
    ensures code == NoError <==> answers != []
    ensures code == NXDomain <==> answers == [] && AsksWithin(norm, snapshot.domains, queries, |queries|)
  {
    answers := [];
    var answered, anyWithin := false, false;
    for i := 0 to |queries|
      invariant answers == AllAnswers(norm, snapshot.records, queries[..i])
      invariant answered <==> answers != []
      invariant anyWithin <==> AsksWithin(norm, snapshot.domains, queries, i)
    {
      var within := IsWithinDomains(norm(queries[i].name), snapshot.domains);
      if within {
        anyWithin := true;
      }
      var more := AnswerQuery(norm, snapshot.records, queries[i]);
      if more != [] {
        answered := true;
      }
      answers := answers + more;
      assert queries[..i + 1][..i] == queries[..i];
    }
    assert queries[..|queries|] == queries;
    code := if answered then NoError else if anyWithin then NXDomain else Refused;
  }

  /** The addresses of a node that a query asks for. */
  function Expected(q: Query, node: Node): (r: seq<Answer>) {
    match q.kind
    case A => [Answer(q.name, V4(node.ipv4))]
    case AAAA => [Answer(q.name, V6(node.ipv6))]
    case ANY => [Answer(q.name, V4(node.ipv4)), Answer(q.name, V6(node.ipv6))]
    case Other => []
  }

  lemma SelectedAddresses(q: Query, node: Node)
    ensures Selected(q, AddressesOf(node)) == Expected(q, node)
  {
    SelectedPair(q, V4(node.ipv4), V6(node.ipv6));
  }

  lemma SelectedPair(q: Query, a: IpAddr, b: IpAddr)
    ensures Selected(q, [a, b])
         == (if Matches(q.kind, a) then [Answer(q.name, a)] else [])
          + (if Matches(q.kind, b) then [Answer(q.name, b)] else [])
  {
    assert [a, b][..1] == [a] && [a][..0] == [];
    assert Selected(q, [a]) == if Matches(q.kind, a) then [Answer(q.name, a)] else [];
  }

  /** The answer for a served node is its address of the asked kind. */
  lemma AnswersExact(norm: string -> string, s: State, records: Records, q: Query, k: string)
    requires DistinctNames(norm, s) && RecordsOf(norm, s, s.nodes.Keys, records)
    requires Served(s, k) && DnsName(norm, s, k) == norm(q.name)
    ensures AnswersTo(norm, records, q) == Expected(q, s.nodes[k])
  {
    ResolvesItself(norm, s, records, k);
    SelectedAddresses(q, s.nodes[k]);
  }

  /** For other names there is none. */
  lemma NoOtherAnswers(norm: string -> string, s: State, records: Records, q: Query)
    requires RecordsOf(norm, s, s.nodes.Keys, records)
    requires forall k | Served(s, k) :: DnsName(norm, s, k) != norm(q.name)
    ensures AnswersTo(norm, records, q) == []
  {
  }

  /**
   A served name lies within its own domain, as the set of domains has it, exactly if that
   does not start with whitespace; then a query for it is never refused.
   */
  lemma ServedWithinIff(lower: string -> string, s: State, domains: set<string>, k: string)
    requires LowersAscii(lower) && Served(s, k) && GoodDomains(s) && ProperNames(s.nodes)
    requires DomainsOf(s.networks, DomainName(Normalizer(lower)), s.networks.Keys, domains)
    ensures DomainOf(s, k) != ""
    ensures Within(DnsName(Normalizer(lower), s, k), Normalizer(lower)(DomainOf(s, k)))
       <==> !IsWhitespace(DomainOf(s, k)[0])
    ensures !IsWhitespace(DomainOf(s, k)[0]) ==> WithinAny(DnsName(Normalizer(lower), s, k), domains)
  {
    var domain := DomainOf(s, k);
    NameOf(lower, s, k);
    WithinIff(s.nodes[k].name, domain);
    AsciiBare(domain);
    assert DomainName(Normalizer(lower))(s.networks[s.nodes[k].networkId]) in domains;
  }
}
