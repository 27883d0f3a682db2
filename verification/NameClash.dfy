/** Names do clash: a run, under either store, after which two unrevoked nodes have one name. */
module NameClash {
  import opened Base
  import opened Text
  import opened Model
  import opened Handlers
  import opened ControlState
  import opened Addresses
  import opened Runs
  import opened NodeRuns
  import opened Names
  import opened Scripts

  /** Who takes part: a network, two nodes of one name, and the first one's token and keys. */
  datatype Cast = Cast(
    network: string, domain: string, ticket: string, name: string,
    first: string, second: string, token: string, key: string, newKey: string)

  predicate Apt(c: Cast) {
    c.first != c.second && c.key != c.newKey && Trim(c.name) != ""
  }

  /** Register a node, revoke it, give its name to another one, and rotate the first one's keys. */
  function Script(c: Cast): (actions: seq<Action>)
    ensures |actions| == 5
  {
    [CreateNetwork(c.network, Some(SMALL4), Some(SMALL6), c.domain, false, None, None, c.ticket, 0),
     RegisterUrl(c.network, c.name, c.key, c.key, None, c.first, c.token, c.ticket, 0),
     RevokeNode(c.first, 1),
     RegisterUrl(c.network, c.name, c.key, c.key, None, c.second, c.token, c.ticket, 2),
     RotateKeys(c.first, Some(c.token), None, Some(c.newKey), None, 3)]
  }

  lemma ScriptRuns(b: Backend, c: Cast)
    requires Apt(c)
    ensures Run(b, After(b, Script(c)), Script(c))
  {
    RunsAsGiven(b, Script(c));
  }

  lemma FirstState(b: Backend, c: Cast, states: seq<State>)
    requires Apt(c) && Run(b, states, Script(c))
    ensures states[1].nodes == map[] && c.network in states[1].networks
    ensures Young(states[1].networks[c.network], Script(c)[0])
  {
    FoundedAt(b, states, Script(c), 0);
  }

  lemma SecondState(b: Backend, c: Cast, states: seq<State>)
    requires Apt(c) && Run(b, states, Script(c))
    ensures c.network in states[2].networks && Roomy(states[2].networks[c.network])
    ensures states[2].networks[c.network].id == c.network
    ensures states[2].nodes.Keys == {c.first}
    ensures IsCalled(states[2].nodes[c.first], c.first, c.network, Trim(c.name), c.token, c.key)
  {
    FirstState(b, c, states);
    JoinedByUrlAt(b, states, Script(c), 1);
  }

  lemma ThirdState(b: Backend, c: Cast, states: seq<State>)
    requires Apt(c) && Run(b, states, Script(c))
    ensures Open(states[3], c.network, Trim(c.name)) && c.first in states[3].nodes
    ensures IsCalled(states[3].nodes[c.first].(revokedAt := None), c.first, c.network, Trim(c.name), c.token, c.key)
  {
    SecondState(b, c, states);
    RevokedAt(b, states, Script(c), 2);
  }

  lemma FourthState(b: Backend, c: Cast, states: seq<State>)
    requires Apt(c) && Run(b, states, Script(c))
    ensures c.first in states[4].nodes && c.second in states[4].nodes
    ensures IsCalled(states[4].nodes[c.first].(revokedAt := None), c.first, c.network, Trim(c.name), c.token, c.key)
    ensures IsCalled(states[4].nodes[c.second], c.second, c.network, Trim(c.name), c.token, c.key)
  {
    ThirdState(b, c, states);
    JoinedByUrlAt(b, states, Script(c), 3);
    Untouched(states[3].nodes, states[4].nodes, c.second, c.first);
  }

  lemma Untouched(nodes: Nodes, nodes': Nodes, id: string, k: string)
    requires OnlyAt(nodes, nodes', id) && k in nodes && k != id
    ensures k in nodes' && nodes'[k] == nodes[k]
  {
  }

  lemma Revived(s: State, a: Action)
    requires RotationAllowed(s.nodes, a) && a.newWgKey == None
    ensures var o := DoRotateKeys(s, a);
            && o.result.Ok? && OnlyAt(s.nodes, o.state.nodes, a.nodeId)
            && var node, node' := s.nodes[a.nodeId], o.state.nodes[a.nodeId];
               node'.networkId == node.networkId && node'.name == node.name && node'.revokedAt == None
  {
  }

  /** Whoever takes part, the script ends with two unrevoked nodes of one name. */
  lemma NamesCanClash(b: Backend, c: Cast) returns (states: seq<State>)
    requires Apt(c)
    ensures Run(b, states, Script(c)) && !UniqueNames(states[5].nodes)
  {
    ScriptRuns(b, c);
    states := After(b, Script(c));
    FourthState(b, c, states);
    Revived(states[4], Script(c)[4]);
    Dispatch(states[4], Script(c)[4]);
    AdvanceTo(b, states, Script(c), 4, DoRotateKeys(states[4], Script(c)[4]));
    ClashFound(states[5].nodes, c.first, c.second);
  }

  lemma XIsAName()
    ensures Trim("x") != ""
  {
    TrimNothing("x");
  }

  /** For instance these. */
  lemma Example() returns (c: Cast)
    ensures Apt(c)
  {
    XIsAName();
    c := Cast("n", "d", "t", "x", "1", "2", "k", "a", "b");
  }
}
