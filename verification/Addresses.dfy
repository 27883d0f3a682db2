/**
 What every action keeps about networks and addresses, also when it fails half-way: map
 keys are ids, references resolve, overlays are disjoint, and every node has addresses of
 its own from the part of its overlay that the cursors have passed.
 */
module Addresses {
  import opened Base
  import opened Model
  import opened Overlay
  import opened Handlers
  import opened ControlState

  type Networks = map<string, Network>
  type Nodes = map<string, Node>
  type Tokens = map<string, Token>

  ghost predicate NetworksKeyed(networks: Networks) {
    forall k <- networks :: networks[k].id == k
  }

  ghost predicate NodesKeyed(nodes: Nodes) {
    forall k <- nodes :: nodes[k].id == k
  }

  /** Tokens are stored under their secret and belong to networks that exist. */
  ghost predicate TokensOk(networks: Networks, tokens: Tokens) {
    forall k <- tokens :: tokens[k].token == k && tokens[k].networkId in networks
  }

  predicate Apart(a: Network, b: Network) {
    !Overlap(a.overlay4, b.overlay4, 32) && !Overlap(a.overlay6, b.overlay6, 128)
  }

  ghost predicate CursorsInOrder(networks: Networks) {
    forall k <- networks :: CursorsOk(networks[k])
  }

  ghost predicate OverlaysApart(networks: Networks) {
    forall j <- networks, k <- networks | j != k :: Apart(networks[j], networks[k])
  }

  /** The cursors of the network have passed these addresses. */
  predicate Passed(n: Network, ipv4: nat, ipv6: nat) {
    && InitialIpv4Offset(n.overlay4).Some?
    && First(n.overlay4, 32) + InitialIpv4Offset(n.overlay4).value <= ipv4 < First(n.overlay4, 32) + n.nextIpv4
    && First(n.overlay6, 128) + InitialIpv6Offset(n.overlay6) <= ipv6 < First(n.overlay6, 128) + n.nextIpv6
  }

  /** A node belongs to a network that exists and has addresses that its cursors have passed. */
  predicate Housed(networks: Networks, node: Node) {
    node.networkId in networks && Passed(networks[node.networkId], node.ipv4, node.ipv6)
  }

  ghost predicate NodesHoused(networks: Networks, nodes: Nodes) {
    forall k <- nodes :: Housed(networks, nodes[k])
  }

  predicate Differ(a: Node, b: Node) {
    a.networkId == b.networkId ==> a.ipv4 != b.ipv4 && a.ipv6 != b.ipv6
  }

  ghost predicate NodesDiffer(nodes: Nodes) {
    forall j <- nodes, k <- nodes | j != k :: Differ(nodes[j], nodes[k])
  }

  ghost predicate Safe(s: State) {
    && NetworksKeyed(s.networks) && CursorsInOrder(s.networks) && OverlaysApart(s.networks)
    && NodesKeyed(s.nodes) && NodesHoused(s.networks, s.nodes) && NodesDiffer(s.nodes)
    && TokensOk(s.networks, s.tokens)
  }

  /** Identifiers and secrets that an action draws are not in use. */
  predicate Unused(s: State, a: Action) {
    match a
    case CreateNetwork(_, _, _, _, _, _, _, secret, _) => secret !in s.tokens
    case CreateToken(_, _, _, _, secret, _) => secret !in s.tokens
    case Register(_, _, _, _, nodeId, _, _) => nodeId !in s.nodes
    case RegisterUrl(_, _, _, _, _, nodeId, _, _, _) => nodeId !in s.nodes
    case _ => true
  }

  // ---------------------------------------------------------------- kinds of change

  /** A node changes, but not its id, network or addresses. */
  predicate SamePlace(a: Node, b: Node) {
    a.id == b.id && a.networkId == b.networkId && a.ipv4 == b.ipv4 && a.ipv6 == b.ipv6
  }

  lemma DifferStays(nodes: Nodes, key: string, node: Node)
    requires NodesDiffer(nodes) && key in nodes && SamePlace(nodes[key], node)
    ensures NodesDiffer(nodes[key := node])
  {
    var nodes' := nodes[key := node];
    forall j <- nodes', k <- nodes' | j != k
      ensures Differ(nodes'[j], nodes'[k])
    {
      assert Differ(nodes[j], nodes[k]);
    }
  }

  lemma NodeChangeSafe(s: State, key: string, node: Node)
    requires Safe(s) && key in s.nodes && SamePlace(s.nodes[key], node)
    ensures Safe(PutNode(s, key, node))
  {
    DifferStays(s.nodes, key, node);
    assert Housed(s.networks, s.nodes[key]);
  }

  lemma NodeDropSafe(s: State, key: string)
    requires Safe(s)
    ensures Safe(s.(nodes := s.nodes - {key}))
  {
  }

  /** A network changes, but not its id or overlays, and its cursors do not go back. */
  predicate SameOverlay(a: Network, b: Network) {
    && a.id == b.id && a.overlay4 == b.overlay4 && a.overlay6 == b.overlay6
    && a.nextIpv4 <= b.nextIpv4 && a.nextIpv6 <= b.nextIpv6
  }

  lemma PassedStays(a: Network, b: Network, ipv4: nat, ipv6: nat)
    requires SameOverlay(a, b) && Passed(a, ipv4, ipv6)
    ensures Passed(b, ipv4, ipv6)
  {
  }

  lemma HousedStays(networks: Networks, nodes: Nodes, key: string, n: Network)
    requires NodesHoused(networks, nodes) && key in networks && SameOverlay(networks[key], n)
    ensures NodesHoused(networks[key := n], nodes)
  {
    forall k <- nodes
      ensures Housed(networks[key := n], nodes[k])
    {
      assert Housed(networks, nodes[k]);
      if nodes[k].networkId == key {
        PassedStays(networks[key], n, nodes[k].ipv4, nodes[k].ipv6);
      }
    }
  }

  lemma ApartStays(networks: Networks, key: string, n: Network)
    requires OverlaysApart(networks) && key in networks && SameOverlay(networks[key], n)
    ensures OverlaysApart(networks[key := n])
  {
    var networks' := networks[key := n];
    forall j <- networks', k <- networks' | j != k
      ensures Apart(networks'[j], networks'[k])
    {
      assert Apart(networks[j], networks[k]);
    }
  }

  lemma NetworkChangeSafe(s: State, key: string, n: Network)
    requires Safe(s) && key in s.networks && SameOverlay(s.networks[key], n) && CursorsOk(n)
    ensures Safe(s.(networks := s.networks[key := n]))
  {
    HousedStays(s.networks, s.nodes, key, n);
    ApartStays(s.networks, key, n);
  }

  lemma ApartGrows(networks: Networks, n: Network)
    requires OverlaysApart(networks) && n.id !in networks
    requires forall k <- networks :: Apart(n, networks[k])
    ensures OverlaysApart(networks[n.id := n])
  {
    var networks' := networks[n.id := n];
    forall j <- networks', k <- networks' | j != k
      ensures Apart(networks'[j], networks'[k])
    {
      if k == n.id {
        assert Apart(n, networks[j]);
      }
    }
  }

  lemma NetworkAddSafe(s: State, n: Network)
    requires Safe(s) && n.id !in s.networks && CursorsFresh(n) && !Overlaps(s, n.overlay4, n.overlay6)
    ensures Safe(s.(networks := s.networks[n.id := n]))
  {
    FreshCursorsOk(n);
    forall k <- s.networks
      ensures Apart(n, s.networks[k])
    {
      assert !Overlap(n.overlay4, s.networks[k].overlay4, 32);
      assert !Overlap(n.overlay6, s.networks[k].overlay6, 128);
    }
    ApartGrows(s.networks, n);
    HousedGrows(s.networks, s.nodes, n);
  }

  lemma HousedGrows(networks: Networks, nodes: Nodes, n: Network)
    requires NodesHoused(networks, nodes) && n.id !in networks
    ensures NodesHoused(networks[n.id := n], nodes)
  {
    forall k <- nodes
      ensures Housed(networks[n.id := n], nodes[k])
    {
      assert Housed(networks, nodes[k]);
    }
  }

  lemma HousedWithout(networks: Networks, nodes: Nodes, id: string)
    requires NodesHoused(networks, nodes) && forall k <- nodes :: nodes[k].networkId != id
    ensures NodesHoused(networks - {id}, nodes)
  {
    forall k <- nodes
      ensures Housed(networks - {id}, nodes[k])
    {
      assert Housed(networks, nodes[k]);
    }
  }

  lemma ApartWithout(networks: Networks, id: string)
    requires OverlaysApart(networks)
    ensures OverlaysApart(networks - {id})
  {
    forall j <- networks - {id}, k <- networks - {id} | j != k
      ensures Apart((networks - {id})[j], (networks - {id})[k])
    {
      assert Apart(networks[j], networks[k]);
    }
  }

  lemma NetworkDropSafe(s: State, id: string)
    requires Safe(s) && !Inhabited(s, id)
    ensures Safe(s.(tokens := map t | t in s.tokens && s.tokens[t].networkId != id :: s.tokens[t],
                    networks := s.networks - {id}))
  {
    HousedWithout(s.networks, s.nodes, id);
    ApartWithout(s.networks, id);
  }

  /** Tokens change, but stay under their keys and refer to existing networks. */
  lemma TokensChangeSafe(s: State, tokens: Tokens)
    requires Safe(s) && TokensOk(s.networks, tokens)
    ensures Safe(s.(tokens := tokens))
  {
  }

  // ---------------------------------------------------------------- enrolment

  /** The allocator hands out what its cursors then have passed, and nothing passed before. */
  lemma AllocatedIsNew(n: Network, ipv4: nat, ipv6: nat)
    requires CursorsOk(n) && Allocate(n).result.Ok?
    ensures var (ip4, ip6) := Allocate(n).result.value;
            && Passed(Allocate(n).network, ip4, ip6)
            && (Passed(n, ipv4, ipv6) ==> ipv4 < ip4 && ipv6 < ip6)
  {
  }

  lemma AllocatedOverlay(n: Network)
    requires CursorsOk(n)
    ensures SameOverlay(n, Allocate(n).network) && CursorsOk(Allocate(n).network)
  {
    AllocateSafe(n);
  }

  lemma DifferGrows(nodes: Nodes, node: Node)
    requires NodesDiffer(nodes) && node.id !in nodes && forall k <- nodes :: Differ(nodes[k], node)
    ensures NodesDiffer(nodes[node.id := node])
  {
    var nodes' := nodes[node.id := node];
    forall j <- nodes', k <- nodes' | j != k
      ensures Differ(nodes'[j], nodes'[k])
    {
      if j == node.id {
        assert Differ(nodes[k], node);
      }
    }
  }

  lemma InsertSafe(s: State, node: Node)
    requires Safe(s) && node.id !in s.nodes && Housed(s.networks, node)
    requires forall k <- s.nodes :: Differ(s.nodes[k], node)
    ensures Safe(WithNode(s, node))
  {
    DifferGrows(s.nodes, node);
  }

  /** Enrolment gives addresses beyond all that were passed before. */
  lemma EnrollSafe(s: State, networkId: string, draft: Node)
    requires Safe(s) && networkId in s.networks && draft.id !in s.nodes
    ensures Safe(Enroll(s, networkId, draft).state)
    ensures Enroll(s, networkId, draft).state.tokens == s.tokens
  {
    var n := s.networks[networkId];
    var alloc := Allocate(n);
    AllocatedOverlay(n);
    NetworkChangeSafe(s, networkId, alloc.network);
    if alloc.result.Ok? {
      var s1 := s.(networks := s.networks[networkId := alloc.network]);
      var node := Placed(draft, alloc.network, alloc.result.value);
      AllocatedIsNew(n, 0, 0);
      forall k <- s.nodes
        ensures Differ(s.nodes[k], node)
      {
        assert Housed(s.networks, s.nodes[k]);
        AllocatedIsNew(n, s.nodes[k].ipv4, s.nodes[k].ipv6);
      }
      InsertSafe(s1, node);
    }
  }

  lemma SpendTokenKeeps(s: State, t: string)
    requires Safe(s) && t in s.tokens
    ensures Safe(s.(tokens := SpendToken(s.tokens, t)))
  {
    TokensChangeSafe(s, SpendToken(s.tokens, t));
  }

  // ---------------------------------------------------------------- actions

  lemma AddedNetworkSafe(s: State, a: Action)
    requires Safe(s) && a.CreateNetwork? && CreateRefusal(s, a) == None
    ensures Safe(Audited(s.(networks := s.networks[a.networkId := FreshNetwork(a)])))
  {
    NetworkAddSafe(s, FreshNetwork(a));
  }

  lemma BootstrapSafe(s: State, a: Action, token: Token)
    requires Safe(s) && a.CreateNetwork? && a.networkId in s.networks && token.token == a.secret
    requires token.networkId == a.networkId
    ensures Safe(s.(tokens := s.tokens[a.secret := token]))
  {
    TokensChangeSafe(s, s.tokens[a.secret := token]);
  }

  lemma CreateNetworkSafe(s: State, a: Action)
    requires Safe(s) && a.CreateNetwork?
    ensures Safe(DoCreateNetwork(s, a).state)
  {
    if CreateRefusal(s, a) == None {
      AddedNetworkSafe(s, a);
      if a.bootstrap.Some? {
        var b := a.bootstrap.value;
        var token := BuildToken(a.networkId, b.ttl, b.uses, b.tags, a.secret, a.now);
        if token.Ok? {
          BootstrapSafe(Audited(s.(networks := s.networks[a.networkId := FreshNetwork(a)])), a, token.value);
        }
      }
    }
  }

  lemma RegisterSafe(s: State, a: Action)
    requires Safe(s) && a.Register? && Unused(s, a)
    ensures Safe(DoRegister(s, a).state)
  {
    if RegisterRefusal(s, a) == None {
      var id, draft := s.tokens[a.token].networkId, RegisterDraft(s, a);
      EnrollSafe(s, id, draft);
      SpendTokenKeeps(Enroll(s, id, draft).state, a.token);
    }
  }

  lemma RegisterUrlSafe(s: State, a: Action)
    requires Safe(s) && a.RegisterUrl? && Unused(s, a)
    ensures Safe(DoRegisterUrl(s, a).state)
  {
    if RegisterUrlRefusal(s, a) == None {
      EnrollSafe(s, a.networkId, RegisterUrlDraft(a));
    }
  }

  lemma CreateTokenSafe(s: State, a: Action)
    requires Safe(s) && a.CreateToken?
    ensures Safe(DoCreateToken(s, a).state)
  {
    TokensChangeSafe(s, DoCreateToken(s, a).state.tokens);
  }

  lemma RevokeTokenSafe(s: State, a: Action)
    requires Safe(s) && a.RevokeToken?
    ensures Safe(DoRevokeToken(s, a).state)
  {
    TokensChangeSafe(s, DoRevokeToken(s, a).state.tokens);
  }

  lemma UpdateAclSafe(s: State, a: Action)
    requires Safe(s) && a.UpdateAcl?
    ensures Safe(DoUpdateAcl(s, a).state)
  {
    if a.networkId in s.networks {
      NetworkChangeSafe(s, a.networkId, s.networks[a.networkId].(acl := a.policy));
    }
  }

  lemma UpdateKeyPolicySafe(s: State, a: Action)
    requires Safe(s) && a.UpdateKeyPolicy?
    ensures Safe(DoUpdateKeyPolicy(s, a).state)
  {
    if a.networkId in s.networks {
      NetworkChangeSafe(s, a.networkId, s.networks[a.networkId].(maxKeyAge := a.maxKeyAge));
    }
  }

  /** The actions that change one node in place. */
  predicate ChangesNode(a: Action) {
    a.ApproveBySecret? || a.ApproveByAdmin? || a.UpdateNode? || a.RotateKeys? || a.RevokeNode? || a.Heartbeat?
  }

  function TargetNode(a: Action): (id: string)
    requires ChangesNode(a)
  {
    match a
    case ApproveBySecret(id, _, _) => id
    case ApproveByAdmin(id, _) => id
    case UpdateNode(id, _, _) => id
    case RotateKeys(id, _, _, _, _, _) => id
    case RevokeNode(id, _) => id
    case Heartbeat(id, _, _, _, _, _, _) => id
  }

  /** Nothing changes but one node, which stays where it is. */
  ghost predicate NodeOnly(s: State, s': State, id: string) {
    && s'.networks == s.networks && s'.tokens == s.tokens
    && (|| s'.nodes == s.nodes
        || (&& id in s.nodes && id in s'.nodes && s'.nodes == s.nodes[id := s'.nodes[id]]
            && SamePlace(s.nodes[id], s'.nodes[id])))
  }

  lemma ApprovalShape(s: State, a: Action)
    requires a.ApproveBySecret? || a.ApproveByAdmin?
    ensures a.ApproveBySecret? ==> NodeOnly(s, DoApproveBySecret(s, a).state, a.nodeId)
    ensures a.ApproveByAdmin? ==> NodeOnly(s, DoApproveByAdmin(s, a).state, a.nodeId)
  {
  }

  lemma UpdateOutcome(s: State, a: Action)
    requires a.UpdateNode?
    ensures var o := DoUpdateNode(s, a);
            if UpdateRefusal(s, a).Some? then o.result.Err? && o.state == s
            else
              && o.state.nodes == s.nodes[a.nodeId := UpdatedNode(s.nodes[a.nodeId], a.newName, a.newTags)]
              && o.state.networks == s.networks && o.state.tokens == s.tokens
              && (o.result.Ok? <==> s.nodes[a.nodeId].networkId in s.networks)
  {
    if UpdateRefusal(s, a) == None {
      UpdatedOutcome(s, a.nodeId, UpdatedNode(s.nodes[a.nodeId], a.newName, a.newTags));
    }
  }

  lemma UpdatedOutcome(s: State, id: string, node': Node)
    requires id in s.nodes
    ensures var o := PutUpdated(s, id, node');
            && o.state.nodes == s.nodes[id := node'] && o.state.networks == s.networks && o.state.tokens == s.tokens
            && (o.result.Ok? <==> s.nodes[id].networkId in s.networks)
  {
  }

  lemma UpdateShape(s: State, a: Action)
    requires a.UpdateNode?
    ensures NodeOnly(s, DoUpdateNode(s, a).state, a.nodeId)
  {
    UpdateOutcome(s, a);
  }

  lemma RotateShape(s: State, a: Action)
    requires a.RotateKeys?
    ensures NodeOnly(s, DoRotateKeys(s, a).state, a.nodeId)
  {
  }

  lemma RevokeShape(s: State, a: Action)
    requires a.RevokeNode?
    ensures NodeOnly(s, DoRevokeNode(s, a).state, a.nodeId)
  {
  }

  lemma HeartbeatShape(s: State, a: Action)
    requires a.Heartbeat?
    ensures NodeOnly(s, DoHeartbeat(s, a).state, a.nodeId)
  {
  }

  lemma NodeActionShape(s: State, a: Action)
    requires ChangesNode(a)
    ensures NodeOnly(s, Handle(s, a).state, TargetNode(a))
  {
    match a
    case ApproveBySecret(_, _, _) => ApprovalShape(s, a);
    case ApproveByAdmin(_, _) => ApprovalShape(s, a);
    case UpdateNode(_, _, _) => UpdateShape(s, a);
    case Heartbeat(_, _, _, _, _, _, _) => HeartbeatShape(s, a);
    case RotateKeys(_, _, _, _, _, _) => RotateShape(s, a);
    case RevokeNode(_, _) => RevokeShape(s, a);
  }

  lemma NodeOnlySafe(s: State, s': State, id: string)
    requires Safe(s) && NodeOnly(s, s', id)
    ensures Safe(s')
  {
    if s'.nodes != s.nodes {
      NodeChangeSafe(s, id, s'.nodes[id]);
    }
  }

  lemma NodeActionSafe(s: State, a: Action)
    requires Safe(s) && ChangesNode(a)
    ensures Safe(Handle(s, a).state)
  {
    NodeActionShape(s, a);
    NodeOnlySafe(s, Handle(s, a).state, TargetNode(a));
  }

  lemma DropActionSafe(s: State, a: Action)
    requires Safe(s) && (a.DeleteNode? || a.DeleteNetwork?)
    ensures Safe(Handle(s, a).state)
  {
    if a.DeleteNode? {
      NodeDropSafe(s, a.nodeId);
    } else if a.networkId in s.networks && !Inhabited(s, a.networkId) {
      NetworkDropSafe(s, a.networkId);
    }
  }

  /** Every closure, successful or not, keeps the state safe. */
  lemma HandleSafe(s: State, a: Action)
    requires Safe(s) && Unused(s, a)
    ensures Safe(Handle(s, a).state)
  {
    match a
    case CreateNetwork(_, _, _, _, _, _, _, _, _) => CreateNetworkSafe(s, a);
    case Register(_, _, _, _, _, _, _) => RegisterSafe(s, a);
    case RegisterUrl(_, _, _, _, _, _, _, _, _) => RegisterUrlSafe(s, a);
    case CreateToken(_, _, _, _, _, _) => CreateTokenSafe(s, a);
    case RevokeToken(_, _) => RevokeTokenSafe(s, a);
    case UpdateAcl(_, _) => UpdateAclSafe(s, a);
    case UpdateKeyPolicy(_, _) => UpdateKeyPolicySafe(s, a);
    case DeleteNode(_) => DropActionSafe(s, a);
    case DeleteNetwork(_) => DropActionSafe(s, a);
    case _ => NodeActionSafe(s, a);
  }

  lemma WriteSafe(b: Backend, s: State, a: Action)
    requires Safe(s) && Unused(s, a)
    ensures Safe(Write(b, s, a))
  {
    HandleSafe(s, a);
  }

  // ---------------------------------------------------------------- meaning

  /**
   In a safe state no two nodes of any networks share an address, and every node's
   addresses lie in its own network's overlays, the IPv4 one strictly between network and
   broadcast address.
   */
  lemma SafeMeansUnique(s: State, j: string, k: string)
    requires Safe(s) && j in s.nodes && k in s.nodes
    ensures j != k ==> s.nodes[j].ipv4 != s.nodes[k].ipv4 && s.nodes[j].ipv6 != s.nodes[k].ipv6
    ensures var n := s.networks[s.nodes[k].networkId];
            && First(n.overlay4, 32) < s.nodes[k].ipv4 < First(n.overlay4, 32) + Size(n.overlay4, 32) - 1
            && Contains(n.overlay6, 128, s.nodes[k].ipv6)
  {
    InOverlay(s, j);
    InOverlay(s, k);
    var nj, nk := s.networks[s.nodes[j].networkId], s.networks[s.nodes[k].networkId];
    OverlapIffShared(nj.overlay4, nk.overlay4, 32);
    OverlapIffShared(nj.overlay6, nk.overlay6, 128);
    if s.nodes[j].networkId != s.nodes[k].networkId {
      assert Apart(nj, nk);
    }
  }

  lemma InOverlay(s: State, k: string)
    requires Safe(s) && k in s.nodes
    ensures var n := s.networks[s.nodes[k].networkId];
            && First(n.overlay4, 32) < s.nodes[k].ipv4 < First(n.overlay4, 32) + Size(n.overlay4, 32) - 1
            && Contains(n.overlay4, 32, s.nodes[k].ipv4)
            && Contains(n.overlay6, 128, s.nodes[k].ipv6)
  {
    var n := s.networks[s.nodes[k].networkId];
    assert Housed(s.networks, s.nodes[k]) && CursorsOk(n);
    Ipv4Bounds(n.overlay4);
    Ipv6Bounds(n.overlay6);
  }
}
