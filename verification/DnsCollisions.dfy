/**
 Full names do collide.  Nothing keeps two networks from having one domain, or one domain
 from lying within another, and names of one network that differ ignoring ASCII case can
 still be lower-cased to the same text.
 */
module DnsCollisions {
  import opened Base
  import opened Text
  import opened Model
  import opened Handlers
  import opened ControlState
  import opened Addresses
  import opened Runs
  import opened Names
  import opened Scripts
  import opened Dns

  /** Two networks and two nodes, with a ticket each. */
  datatype Pair = Pair(
    network: string, domain: string, ticket: string, node: string, name: string,
    network': string, domain': string, ticket': string, node': string, name': string)

  predicate Apt(p: Pair) {
    && p.network != p.network' && p.ticket != p.ticket' && p.node != p.node'
    && Trim(p.name) != "" && Trim(p.name') != ""
  }

  function Bring(network: string, c4: Cidr4, c6: Cidr6, domain: string, ticket: string, uses: nat): (a: Action) {
    CreateNetwork(network, Some(c4), Some(c6), domain, false, None, Some(Bootstrap(1, uses, [])), ticket, 0)
  }

  function Join(ticket: string, name: string, node: string): (a: Action) {
    Register(ticket, name, name, name, node, node, 0)
  }

  /** The network has that domain, room for a node, and needs no approval. */
  predicate Ready(s: State, network: string, domain: string) {
    && network in s.networks && s.networks[network].id == network && Roomy(s.networks[network])
    && s.networks[network].dnsDomain == domain && !s.networks[network].requiresApproval
  }

  predicate GoodTicket(s: State, ticket: string, network: string) {
    Admitting(s.tokens, ticket, 0) && s.tokens[ticket].networkId == network
  }

  /** The node is served under that name and domain. */
  predicate ServedAs(s: State, k: string, network: string, name: string, domain: string) {
    Served(s, k) && s.nodes[k].networkId == network && s.nodes[k].name == name && DomainOf(s, k) == domain
  }

  lemma Brought(s: State, a: Action, s': State)
    requires a.CreateNetwork? && !a.requiresApproval && a.now == 0 && a.bootstrap.Some?
    requires a.bootstrap.value.ttl > 0 && a.bootstrap.value.uses > 0 && Founds(s, a, s')
    ensures Ready(s', a.networkId, a.dnsDomain) && GoodTicket(s', a.secret, a.networkId)
  {
  }

  lemma BroughtBeside(s: State, a: Action, s': State, network: string, domain: string, ticket: string)
    requires a.CreateNetwork? && Founds(s, a, s') && network != a.networkId && ticket != a.secret
    requires Ready(s, network, domain) && GoodTicket(s, ticket, network)
    ensures Ready(s', network, domain) && GoodTicket(s', ticket, network)
  {
  }

  lemma ServedAfter(s: State, a: Action, network: string, domain: string, s': State)
    requires a.Register? && Joins(s, a, network, s') && s'.nodes[a.nodeId].approved
    requires s.networks[network].dnsDomain == domain
    ensures ServedAs(s', a.nodeId, network, Trim(a.name), domain)
  {
  }

  lemma FirstOf(s: State, a: Action, network: string, domain: string, s': State)
    requires a.Register? && Joins(s, a, network, s') && s'.nodes[a.nodeId].approved
    requires s.nodes == map[] && s.networks[network].dnsDomain == domain
    ensures s'.nodes.Keys == {a.nodeId} && ServedAs(s', a.nodeId, network, Trim(a.name), domain)
  {
    ServedAfter(s, a, network, domain, s');
  }

  lemma StillServed(s: State, a: Action, network: string, s': State, k: string, other: string, name: string,
                    domain: string)
    requires a.Register? && Joins(s, a, network, s') && ServedAs(s, k, other, name, domain) && k != a.nodeId
    ensures ServedAs(s', k, other, name, domain)
  {
  }

  lemma OtherReady(s: State, a: Action, network: string, s': State, other: string, domain: string, ticket: string)
    requires a.Register? && Joins(s, a, network, s') && other != network && ticket != a.token && a.token in s.tokens
    requires s'.tokens == SpendToken(s.tokens, a.token) && Ready(s, other, domain) && GoodTicket(s, ticket, other)
    ensures Ready(s', other, domain) && GoodTicket(s', ticket, other)
  {
  }

  lemma JoinedAt(b: Backend, states: seq<State>, actions: seq<Action>, i: nat, network: string, domain: string)
    requires Run(b, states, actions) && i < |actions| && actions[i].Register? && actions[i].now == 0
    requires Ready(states[i], network, domain) && GoodTicket(states[i], actions[i].token, network)
    requires Trim(actions[i].name) != "" && !NameTaken(states[i].nodes, network, Trim(actions[i].name), None)
    ensures var s, a, s' := states[i], actions[i], states[i + 1];
            && Joins(s, a, network, s') && s'.nodes[a.nodeId].approved && s'.tokens == SpendToken(s.tokens, a.token)
  {
    JoinedByTokenAt(b, states, actions, i);
  }

  // ---------------------------------------------------------------- two networks

  /** Found both networks and register a node in each. */
  function Neighbours(p: Pair): (actions: seq<Action>)
    ensures |actions| == 4
  {
    [Bring(p.network, SMALL4, SMALL6, p.domain, p.ticket, 1),
     Bring(p.network', OTHER4, OTHER6, p.domain', p.ticket', 1),
     Join(p.ticket, p.name, p.node),
     Join(p.ticket', p.name', p.node')]
  }

  lemma NeighboursRun(b: Backend, p: Pair)
    requires Apt(p)
    ensures Run(b, After(b, Neighbours(p)), Neighbours(p))
  {
    NeighboursApart(p);
    RunsAsGiven(b, Neighbours(p));
  }

  lemma NeighboursApart(p: Pair)
    requires Apt(p)
    ensures forall i, j | 0 <= i < j < 4 :: DrawApart(Neighbours(p)[i], Neighbours(p)[j])
  {
  }

  lemma SecondFits(p: Pair, s: State, s': State)
    requires Apt(p) && s.networks == map[] && Founds(s, Neighbours(p)[0], s')
    ensures Foundable(s', Neighbours(p)[1])
  {
    SmallApart();
  }

  lemma FirstFounded(b: Backend, p: Pair, states: seq<State>)
    requires Apt(p) && Run(b, states, Neighbours(p))
    ensures Founds(states[0], Neighbours(p)[0], states[1])
  {
    FoundedAt(b, states, Neighbours(p), 0);
  }

  lemma SecondFounded(b: Backend, p: Pair, states: seq<State>)
    requires Apt(p) && Run(b, states, Neighbours(p))
    ensures Founds(states[1], Neighbours(p)[1], states[2])
  {
    FirstFounded(b, p, states);
    SecondFits(p, states[0], states[1]);
    FoundedAt(b, states, Neighbours(p), 1);
  }

  lemma TwoNetworks(b: Backend, p: Pair, states: seq<State>)
    requires Apt(p) && Run(b, states, Neighbours(p))
    ensures Ready(states[2], p.network, p.domain) && GoodTicket(states[2], p.ticket, p.network)
    ensures Ready(states[2], p.network', p.domain') && GoodTicket(states[2], p.ticket', p.network')
    ensures states[2].nodes == map[]
  {
    FirstFounded(b, p, states);
    SecondFounded(b, p, states);
    Brought(states[0], Neighbours(p)[0], states[1]);
    Brought(states[1], Neighbours(p)[1], states[2]);
    BroughtBeside(states[1], Neighbours(p)[1], states[2], p.network, p.domain, p.ticket);
  }

  lemma FirstJoins(b: Backend, p: Pair, states: seq<State>)
    requires Apt(p) && Run(b, states, Neighbours(p))
    ensures Joins(states[2], Neighbours(p)[2], p.network, states[3]) && states[3].nodes[p.node].approved
    ensures p.ticket in states[2].tokens && states[3].tokens == SpendToken(states[2].tokens, p.ticket)
  {
    TwoNetworks(b, p, states);
    JoinedAt(b, states, Neighbours(p), 2, p.network, p.domain);
  }

  lemma FirstNode(b: Backend, p: Pair, states: seq<State>)
    requires Apt(p) && Run(b, states, Neighbours(p))
    ensures states[3].nodes.Keys == {p.node} && ServedAs(states[3], p.node, p.network, Trim(p.name), p.domain)
  {
    TwoNetworks(b, p, states);
    FirstJoins(b, p, states);
    FirstOf(states[2], Neighbours(p)[2], p.network, p.domain, states[3]);
  }

  lemma SecondReady(b: Backend, p: Pair, states: seq<State>)
    requires Apt(p) && Run(b, states, Neighbours(p))
    ensures Ready(states[3], p.network', p.domain') && GoodTicket(states[3], p.ticket', p.network')
  {
    TwoNetworks(b, p, states);
    FirstJoins(b, p, states);
    OtherReady(states[2], Neighbours(p)[2], p.network, states[3], p.network', p.domain', p.ticket');
  }

  lemma BothNodes(b: Backend, p: Pair, states: seq<State>)
    requires Apt(p) && Run(b, states, Neighbours(p))
    ensures ServedAs(states[4], p.node, p.network, Trim(p.name), p.domain)
    ensures ServedAs(states[4], p.node', p.network', Trim(p.name'), p.domain')
  {
    FirstNode(b, p, states);
    SecondReady(b, p, states);
    assert !NameTaken(states[3].nodes, p.network', Trim(p.name'), None);
    JoinedAt(b, states, Neighbours(p), 3, p.network', p.domain');
    ServedAfter(states[3], Neighbours(p)[3], p.network', p.domain', states[4]);
    StillServed(states[3], Neighbours(p)[3], p.network', states[4], p.node, p.network, Trim(p.name), p.domain);
  }

  /**
   Whatever the normalisation, any two full names of different networks that it makes the
   same do meet: there is a run, under either store, after which one of the two nodes does
   not resolve.
   */
  lemma CollisionsHappen(norm: string -> string, b: Backend, p: Pair) returns (states: seq<State>)
    requires Apt(p) && norm(Trim(p.name) + "." + p.domain) == norm(Trim(p.name') + "." + p.domain')
    ensures Run(b, states, Neighbours(p)) && !DistinctNames(norm, states[4])
  {
    NeighboursRun(b, p);
    states := After(b, Neighbours(p));
    BothNodes(b, p, states);
    Collide(norm, states[4], p.node, p.node');
  }

  lemma Collide(norm: string -> string, s: State, j: string, k: string)
    requires Served(s, j) && Served(s, k) && j != k && DnsName(norm, s, j) == DnsName(norm, s, k)
    ensures !DistinctNames(norm, s)
  {
  }

  /** The simplest case: one name in two networks with one domain. */
  lemma OneDomainCollides(norm: string -> string, b: Backend, p: Pair) returns (states: seq<State>)
    requires Apt(p) && p.domain == p.domain' && p.name == p.name'
    ensures Run(b, states, Neighbours(p)) && !DistinctNames(norm, states[4])
  {
    states := CollisionsHappen(norm, b, p);
  }

  /** A dotted name under one domain and the rest of it under a domain that begins with its end. */
  lemma NestedDomainCollides(norm: string -> string, b: Backend, p: Pair, inner: string) returns (states: seq<State>)
    requires Apt(p) && Trim(p.name) == Trim(p.name') + "." + inner && p.domain' == inner + "." + p.domain
    ensures Run(b, states, Neighbours(p)) && !DistinctNames(norm, states[4])
  {
    assert Trim(p.name) + "." + p.domain == Trim(p.name') + "." + p.domain';
    states := CollisionsHappen(norm, b, p);
  }

  // ---------------------------------------------------------------- one network

  /** Found a network and register two nodes in it. */
  function Housemates(p: Pair): (actions: seq<Action>)
    ensures |actions| == 3
  {
    [Bring(p.network, SMALL4, SMALL6, p.domain, p.ticket, 2),
     Join(p.ticket, p.name, p.node),
     Join(p.ticket, p.name', p.node')]
  }

  lemma HousematesRun(b: Backend, p: Pair)
    requires Apt(p)
    ensures Run(b, After(b, Housemates(p)), Housemates(p))
  {
    HousematesApart(p);
    RunsAsGiven(b, Housemates(p));
  }

  lemma HousematesApart(p: Pair)
    requires Apt(p)
    ensures forall i, j | 0 <= i < j < 3 :: DrawApart(Housemates(p)[i], Housemates(p)[j])
  {
  }

  lemma House(b: Backend, p: Pair, states: seq<State>)
    requires Apt(p) && Run(b, states, Housemates(p))
    ensures Founds(states[0], Housemates(p)[0], states[1]) && states[1].nodes == map[]
    ensures Ready(states[1], p.network, p.domain) && GoodTicket(states[1], p.ticket, p.network)
  {
    FoundedAt(b, states, Housemates(p), 0);
    Brought(states[0], Housemates(p)[0], states[1]);
  }

  /** The network still has room and the ticket a use left. */
  lemma StillReady(p: Pair, s: State, s1: State, s2: State)
    requires Founds(s, Housemates(p)[0], s1) && Joins(s1, Housemates(p)[1], p.network, s2)
    requires p.ticket in s1.tokens && s2.tokens == SpendToken(s1.tokens, p.ticket)
    ensures Ready(s2, p.network, p.domain) && GoodTicket(s2, p.ticket, p.network)
  {
    assert s1.tokens[p.ticket] == Ticket(Housemates(p)[0]);
    SpentOnce(s1.tokens, p.ticket);
  }

  lemma SpentOnce(tokens: map<string, Token>, t: string)
    requires t in tokens && tokens[t].usesLeft == 2
    ensures t in SpendToken(tokens, t) && SpendToken(tokens, t)[t] == tokens[t].(usesLeft := 1)
  {
  }

  lemma FirstMate(b: Backend, p: Pair, states: seq<State>)
    requires Apt(p) && Run(b, states, Housemates(p))
    ensures states[2].nodes.Keys == {p.node} && ServedAs(states[2], p.node, p.network, Trim(p.name), p.domain)
    ensures Ready(states[2], p.network, p.domain) && GoodTicket(states[2], p.ticket, p.network)
  {
    House(b, p, states);
    JoinedAt(b, states, Housemates(p), 1, p.network, p.domain);
    StillReady(p, states[0], states[1], states[2]);
    FirstOf(states[1], Housemates(p)[1], p.network, p.domain, states[2]);
  }

  lemma BothMates(b: Backend, p: Pair, states: seq<State>)
    requires Apt(p) && Run(b, states, Housemates(p)) && !SameIgnoringCase(Trim(p.name), Trim(p.name'))
    ensures states[3].nodes.Keys == {p.node, p.node'}
    ensures ServedAs(states[3], p.node, p.network, Trim(p.name), p.domain)
    ensures ServedAs(states[3], p.node', p.network, Trim(p.name'), p.domain)
  {
    FirstMate(b, p, states);
    assert !NameTaken(states[2].nodes, p.network, Trim(p.name'), None);
    JoinedAt(b, states, Housemates(p), 2, p.network, p.domain);
    ServedAfter(states[2], Housemates(p)[2], p.network, p.domain, states[3]);
    StillServed(states[2], Housemates(p)[2], p.network, states[3], p.node, p.network, Trim(p.name), p.domain);
  }

  /**
   Why names must be ASCII: two names of one network that differ ignoring ASCII case, as an
   accented letter does in upper and lower case, are both accepted and stay unique, and
   collide if lower-casing merges them.
   */
  lemma FoldedNamesCollide(norm: string -> string, b: Backend, p: Pair) returns (states: seq<State>)
    requires Apt(p) && !SameIgnoringCase(Trim(p.name), Trim(p.name'))
    requires norm(Trim(p.name) + "." + p.domain) == norm(Trim(p.name') + "." + p.domain)
    ensures Run(b, states, Housemates(p))
    ensures UniqueNames(states[3].nodes) && !DistinctNames(norm, states[3])
  {
    HousematesRun(b, p);
    states := After(b, Housemates(p));
    BothMates(b, p, states);
    Collide(norm, states[3], p.node, p.node');
    TwoUnique(states[3].nodes, p.node, p.node');
  }

  lemma TwoUnique(nodes: Nodes, j: string, k: string)
    requires nodes.Keys == {j, k} && !Clash(nodes[j], nodes[k])
    ensures UniqueNames(nodes)
  {
  }
}
