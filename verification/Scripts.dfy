/** Runs given by a list of actions, and small networks to run them on. */
module Scripts {
  import opened Base
  import opened Text
  import opened Model
  import opened Overlay
  import opened Handlers
  import opened ControlState
  import opened Runs
  import opened NodeRuns

  // ---------------------------------------------------------------- runs as given

  /** The states that the actions lead through, one after the other. */
  function Through<S, A>(f: (S, A) -> S, s: S, actions: seq<A>): (states: seq<S>)
    ensures |states| == |actions| + 1 && states[0] == s
  {
    if actions == [] then [s] else
    var states := Through(f, s, actions[..|actions| - 1]);
    states + [f(states[|actions| - 1], actions[|actions| - 1])]
  }

  lemma {:induction false} ThroughFollows<S, A>(f: (S, A) -> S, s: S, actions: seq<A>, i: nat)
    requires i < |actions|
    ensures Through(f, s, actions)[i + 1] == f(Through(f, s, actions)[i], actions[i])
  {
    if i < |actions| - 1 {
      ThroughFollows(f, s, actions[..|actions| - 1], i);
    }
  }

  ghost function After(b: Backend, actions: seq<Action>): (states: seq<State>)
    ensures |states| == |actions| + 1
  {
    Through((s, a) => Write(b, s, a), DEFAULT_STATE, actions)
  }

  lemma RunsAsGiven(b: Backend, actions: seq<Action>)
    requires forall i, j | 0 <= i < j < |actions| :: DrawApart(actions[i], actions[j])
    ensures Run(b, After(b, actions), actions)
  {
    forall i | 0 <= i < |actions|
      ensures Follows(b, After(b, actions), actions, i)
    {
      ThroughFollows((s, a) => Write(b, s, a), DEFAULT_STATE, actions, i);
    }
  }

  /** A successful action leaves its state behind, up to the revision. */
  ghost predicate Leaves(o: Outcome, s: State) {
    o.result.Ok? && s.networks == o.state.networks && s.nodes == o.state.nodes && s.tokens == o.state.tokens
  }

  lemma AdvanceTo(b: Backend, states: seq<State>, actions: seq<Action>, i: nat, o: Outcome)
    requires Run(b, states, actions) && i < |actions| && o == Handle(states[i], actions[i]) && o.result.Ok?
    ensures Leaves(o, states[i + 1])
  {
    assert Follows(b, states, actions, i);
  }

  lemma Dispatch(s: State, a: Action)
    ensures a.CreateNetwork? ==> Handle(s, a) == DoCreateNetwork(s, a)
    ensures a.Register? ==> Handle(s, a) == DoRegister(s, a)
    ensures a.RegisterUrl? ==> Handle(s, a) == DoRegisterUrl(s, a)
    ensures a.RevokeNode? ==> Handle(s, a) == DoRevokeNode(s, a)
    ensures a.RotateKeys? ==> Handle(s, a) == DoRotateKeys(s, a)
  {
  }

  // ---------------------------------------------------------------- small networks

  const SMALL4: Cidr4 := Cidr(0, 30)
  const SMALL6: Cidr6 := Cidr(0, 126)
  const OTHER4: Cidr4 := Cidr(4, 30)
  const OTHER6: Cidr6 := Cidr(4, 126)

  lemma SmallBounds(c4: Cidr4, c6: Cidr6)
    requires c4.prefix == 30 && c6.prefix == 126
    ensures MaxIpv4Offset(c4) == Some(2) && InitialIpv4Offset(c4) == Some(1)
    ensures MaxIpv6Offset(c6) == 3 && InitialIpv6Offset(c6) == 1
  {
    assert Pow2(2) == 4;
  }

  lemma SmallApart()
    ensures !Overlap(OTHER4, SMALL4, 32) && !Overlap(OTHER6, SMALL6, 128)
  {
    assert Pow2(2) == 4;
    assert RoundDown(0, 4) == 0 && RoundDown(4, 4) == 4;
  }

  /** Address room for at least one more node. */
  predicate Roomy(n: Network) {
    n.overlay4.prefix == 30 && n.overlay6.prefix == 126 && n.nextIpv4 <= 2 && n.nextIpv6 <= 3
  }

  function Fuller(n: Network): (r: Network) {
    n.(nextIpv4 := n.nextIpv4 + 1, nextIpv6 := n.nextIpv6 + 1)
  }

  lemma RoomLeft(n: Network)
    requires Roomy(n)
    ensures Allocate(n).result.Ok? && Allocate(n).network == Fuller(n)
  {
    SmallBounds(n.overlay4, n.overlay6);
  }

  /** A small network can be founded beside others that it does not overlap. */
  ghost predicate Foundable(s: State, a: Action) {
    && a.CreateNetwork? && a.overlay4.Some? && a.overlay6.Some?
    && a.overlay4.value.prefix == 30 && a.overlay6.value.prefix == 126 && a.networkId !in s.networks
    && !Overlaps(s, a.overlay4.value, a.overlay6.value)
  }

  lemma FoundingAllowed(s: State, a: Action)
    requires Foundable(s, a)
    ensures CreateRefusal(s, a) == None && Roomy(FreshNetwork(a))
    ensures FreshNetwork(a).nextIpv4 == 1 && FreshNetwork(a).nextIpv6 == 1
  {
    SmallBounds(a.overlay4.value, a.overlay6.value);
  }

  /** The network as it is just after its founding. */
  predicate Young(n: Network, a: Action)
    requires a.CreateNetwork?
  {
    && n.id == a.networkId && n.dnsDomain == a.dnsDomain && n.requiresApproval == a.requiresApproval
    && n.overlay4.prefix == 30 && n.overlay6.prefix == 126 && n.nextIpv4 == 1 && n.nextIpv6 == 1
    && Some(n.overlay4) == a.overlay4 && Some(n.overlay6) == a.overlay6
  }

  ghost predicate Founds(s: State, a: Action, s': State)
    requires a.CreateNetwork?
  {
    && s'.nodes == s.nodes && a.networkId in s'.networks
    && s'.networks == s.networks[a.networkId := s'.networks[a.networkId]]
    && Young(s'.networks[a.networkId], a)
    && s'.tokens == if a.bootstrap.Some? then s.tokens[a.secret := Ticket(a)] else s.tokens
  }

  function Ticket(a: Action): (t: Token)
    requires a.CreateNetwork? && a.bootstrap.Some?
  {
    Token(a.secret, a.networkId, a.now + a.bootstrap.value.ttl, a.bootstrap.value.uses, a.bootstrap.value.tags, None)
  }

  lemma Founded(s: State, a: Action)
    requires Foundable(s, a) && (a.bootstrap.Some? ==> a.bootstrap.value.ttl > 0 && a.bootstrap.value.uses > 0)
    ensures DoCreateNetwork(s, a).result.Ok? && Founds(s, a, DoCreateNetwork(s, a).state)
  {
    FoundingAllowed(s, a);
  }

  lemma FoundedAt(b: Backend, states: seq<State>, actions: seq<Action>, i: nat)
    requires Run(b, states, actions) && i < |actions| && Foundable(states[i], actions[i])
    requires var a := actions[i]; a.bootstrap.Some? ==> a.bootstrap.value.ttl > 0 && a.bootstrap.value.uses > 0
    ensures Founds(states[i], actions[i], states[i + 1])
  {
    Founded(states[i], actions[i]);
    Dispatch(states[i], actions[i]);
    AdvanceTo(b, states, actions, i, DoCreateNetwork(states[i], actions[i]));
  }

  // ---------------------------------------------------------------- joining them

  predicate IsCalled(node: Node, id: string, networkId: string, name: string, token: string, key: string) {
    && node.id == id && node.networkId == networkId && node.name == name && node.revokedAt == None
    && node.nodeToken == Some(token) && node.machineKey == key
  }

  /** The registered node is the only change to the nodes. */
  ghost predicate Joins(s: State, a: Action, networkId: string, s': State)
    requires a.Register? || a.RegisterUrl?
  {
    && networkId in s.networks
    && s'.networks == s.networks[networkId := Fuller(s.networks[networkId])]
    && OnlyAt(s.nodes, s'.nodes, a.nodeId)
    && IsCalled(s'.nodes[a.nodeId], a.nodeId, networkId, Trim(a.name), a.nodeToken, a.machineKey)
  }

  /** The network is there, has room, and nobody in it has the name. */
  ghost predicate Open(s: State, networkId: string, name: string) {
    && networkId in s.networks && s.networks[networkId].id == networkId && Roomy(s.networks[networkId])
    && name != "" && !NameTaken(s.nodes, networkId, name, None)
  }

  lemma JoinedByUrl(s: State, a: Action)
    requires a.RegisterUrl? && a.ttlSeconds == None && Open(s, a.networkId, Trim(a.name))
    ensures DoRegisterUrl(s, a).result.Ok? && Joins(s, a, a.networkId, DoRegisterUrl(s, a).state)
  {
    assert RegisterUrlRefusal(s, a) == None;
    RoomLeft(s.networks[a.networkId]);
    EnrollNodes(s, a.networkId, RegisterUrlDraft(a));
    EnrolledNetworks(s, a.networkId, RegisterUrlDraft(a));
  }

  lemma JoinedByUrlAt(b: Backend, states: seq<State>, actions: seq<Action>, i: nat)
    requires Run(b, states, actions) && i < |actions| && actions[i].RegisterUrl? && actions[i].ttlSeconds == None
    requires Open(states[i], actions[i].networkId, Trim(actions[i].name))
    ensures Joins(states[i], actions[i], actions[i].networkId, states[i + 1])
  {
    JoinedByUrl(states[i], actions[i]);
    Dispatch(states[i], actions[i]);
    AdvanceTo(b, states, actions, i, DoRegisterUrl(states[i], actions[i]));
  }

  /** The token is good for at least one registration at that time. */
  predicate Admitting(tokens: map<string, Token>, token: string, now: int) {
    token in tokens && tokens[token].expiresAt > now && tokens[token].revokedAt == None && tokens[token].usesLeft > 0
  }

  lemma JoinedByToken(s: State, a: Action)
    requires a.Register? && Admitting(s.tokens, a.token, a.now) && Open(s, s.tokens[a.token].networkId, Trim(a.name))
    ensures var id, o := s.tokens[a.token].networkId, DoRegister(s, a);
            && o.result.Ok? && Joins(s, a, id, o.state)
            && o.state.nodes[a.nodeId].approved == !s.networks[id].requiresApproval
            && o.state.tokens == SpendToken(s.tokens, a.token)
  {
    assert RegisterRefusal(s, a) == None;
    var id := s.tokens[a.token].networkId;
    RoomLeft(s.networks[id]);
    EnrollNodes(s, id, RegisterDraft(s, a));
    EnrolledNetworks(s, id, RegisterDraft(s, a));
  }

  lemma JoinedByTokenAt(b: Backend, states: seq<State>, actions: seq<Action>, i: nat)
    requires Run(b, states, actions) && i < |actions| && actions[i].Register?
    requires Admitting(states[i].tokens, actions[i].token, actions[i].now)
    requires Open(states[i], states[i].tokens[actions[i].token].networkId, Trim(actions[i].name))
    ensures var id := states[i].tokens[actions[i].token].networkId;
            && Joins(states[i], actions[i], id, states[i + 1])
            && states[i + 1].nodes[actions[i].nodeId].approved == !states[i].networks[id].requiresApproval
            && states[i + 1].tokens == SpendToken(states[i].tokens, actions[i].token)
  {
    JoinedByToken(states[i], actions[i]);
    Dispatch(states[i], actions[i]);
    AdvanceTo(b, states, actions, i, DoRegister(states[i], actions[i]));
  }

  lemma RevokedAt(b: Backend, states: seq<State>, actions: seq<Action>, i: nat)
    requires Run(b, states, actions) && i < |actions| && actions[i].RevokeNode? && actions[i].nodeId in states[i].nodes
    ensures states[i + 1].networks == states[i].networks
    ensures var id := actions[i].nodeId;
            states[i + 1].nodes == states[i].nodes[id := RevokedNode(states[i].nodes[id], actions[i].now)]
  {
    Dispatch(states[i], actions[i]);
    AdvanceTo(b, states, actions, i, DoRevokeNode(states[i], actions[i]));
  }
}
