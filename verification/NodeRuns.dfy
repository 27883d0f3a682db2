/**
 What an action does to the stored nodes, for every outcome and under either store, and
 runs seen as traces of such steps.
 */
module NodeRuns {
  import opened Base
  import opened Text
  import opened Model
  import opened Handlers
  import opened ControlState
  import opened Addresses
  import opened Runs

  // ---------------------------------------------------------------- one step

  /** The node that a registration adds. */
  ghost predicate Newborn(nodes: Nodes, a: Action, node: Node)
    requires a.Register? || a.RegisterUrl?
  {
    && node.id == a.nodeId
    && node.name == Trim(a.name) != ""
    && node.revokedAt == None
    && node.machineKey == a.machineKey && node.wgKey == a.wgKey
    && node.keyHistory == NewKeys(a.machineKey, a.wgKey, a.now)
    && !NameTaken(nodes, node.networkId, node.name, None)
    && BornWith(a, node)
  }

  /** A token leaves no secret behind; without one the node waits for its approval. */
  predicate BornWith(a: Action, node: Node)
    requires a.Register? || a.RegisterUrl?
  {
    if a.Register? then
      && node.approvedAt == (if node.approved then Some(a.now) else None)
      && node.authSecret == None && node.authExpiresAt == None
    else
      !node.approved && node.approvedAt == None
      && node.authSecret == Some(a.secret) && node.authExpiresAt == Some(a.now + UrlTtl(a))
  }

  /** The secret is the node's own and has not expired. */
  predicate Admits(node: Node, secret: string, now: int) {
    node.authSecret == Some(secret) && (node.authExpiresAt.Some? ==> now < node.authExpiresAt.value)
  }

  function Rotated(node: Node, newMachineKey: Option<string>, newWgKey: Option<string>, now: int): (n: Node) {
    var n1 := if newMachineKey.Some? then RotateMachine(node, newMachineKey.value, now) else node;
    if newWgKey.Some? then RotateWireGuard(n1, newWgKey.value, now) else n1
  }

  /** A rotation succeeds: authorised, with at least one key, and neither is the current one. */
  predicate RotationAllowed(nodes: Nodes, a: Action) {
    && a.RotateKeys? && a.nodeId in nodes
    && Authorized(nodes[a.nodeId], a.bearer, a.admin)
    && (a.newMachineKey.Some? || a.newWgKey.Some?)
    && a.newMachineKey != Some(nodes[a.nodeId].machineKey)
    && a.newWgKey != Some(nodes[a.nodeId].wgKey)
  }

  /** What a successful action does to its node. */
  ghost predicate Changed(nodes: Nodes, a: Action, node: Node, node': Node)
    requires ChangesNode(a)
  {
    match a
    case ApproveBySecret(_, secret, now) =>
      node' == (if node.approved then node else Approved(node, now)) && (node.approved || Admits(node, secret, now))
    case ApproveByAdmin(_, now) =>
      node' == (if node.approved then node else Approved(node, now))
    case UpdateNode(_, newName, newTags) =>
      && node' == UpdatedNode(node, newName, newTags)
      && (node'.name != node.name ==> node'.name != "" && !NameTaken(nodes, node.networkId, node'.name, Some(node.id)))
    case RotateKeys(_, _, _, newMachineKey, newWgKey, now) =>
      RotationAllowed(nodes, a) && node' == Rotated(node, newMachineKey, newWgKey, now).(revokedAt := None)
    case RevokeNode(_, now) =>
      node' == RevokedNode(node, now)
    case Heartbeat(_, _, _, _, _, _, _) =>
      node' == node.(endpoints := node'.endpoints, lastSeen := node'.lastSeen,
                     probeRequestedAt := node'.probeRequestedAt)
  }

  /** A rotation that fails at its second key, after it replaced the first. */
  predicate PartialRotation(nodes: Nodes, a: Action) {
    && a.RotateKeys? && a.nodeId in nodes
    && Authorized(nodes[a.nodeId], a.bearer, a.admin)
    && a.newMachineKey.Some? && a.newMachineKey != Some(nodes[a.nodeId].machineKey)
    && a.newWgKey == Some(nodes[a.nodeId].wgKey)
  }

  /** Only the node with this id is new or different. */
  ghost predicate OnlyAt(nodes: Nodes, nodes': Nodes, id: string) {
    id in nodes' && nodes' == nodes[id := nodes'[id]]
  }

  ghost predicate Success(nodes: Nodes, a: Action, nodes': Nodes) {
    if a.Register? || a.RegisterUrl? then
      OnlyAt(nodes, nodes', a.nodeId) && a.nodeId !in nodes && Newborn(nodes, a, nodes'[a.nodeId])
    else if ChangesNode(a) then
      && OnlyAt(nodes, nodes', TargetNode(a)) && TargetNode(a) in nodes
      && SamePlace(nodes[TargetNode(a)], nodes'[TargetNode(a)])
      && Changed(nodes, a, nodes[TargetNode(a)], nodes'[TargetNode(a)])
    else if a.DeleteNode? then
      nodes' == nodes - {a.nodeId}
    else
      nodes' == nodes
  }

  /** A failure leaves the nodes alone, except that a file store keeps half a rotation. */
  ghost predicate Failure(b: Backend, nodes: Nodes, a: Action, nodes': Nodes) {
    && !RotationAllowed(nodes, a)
    && if b.File? && PartialRotation(nodes, a) then
         nodes' == nodes[a.nodeId := RotateMachine(nodes[a.nodeId], a.newMachineKey.value, a.now)]
       else
         nodes' == nodes
  }

  ghost predicate NodeStep(b: Backend, nodes: Nodes, a: Action, ok: bool, nodes': Nodes) {
    if ok then Success(nodes, a, nodes') else Failure(b, nodes, a, nodes')
  }

  /** The actions that add or change this node. */
  predicate Concerns(a: Action, k: string) {
    ((a.Register? || a.RegisterUrl?) && a.nodeId == k) || (ChangesNode(a) && TargetNode(a) == k)
  }

  lemma Unconcerned(nodes: Nodes, a: Action, nodes': Nodes, k: string)
    requires Success(nodes, a, nodes') && k in nodes' && !Concerns(a, k)
    ensures k in nodes && nodes'[k] == nodes[k]
  {
    if a.Register? || a.RegisterUrl? {
      Elsewhere(nodes, nodes', a.nodeId, k);
    } else if ChangesNode(a) {
      Elsewhere(nodes, nodes', TargetNode(a), k);
    }
  }

  lemma Elsewhere(nodes: Nodes, nodes': Nodes, id: string, k: string)
    requires OnlyAt(nodes, nodes', id) && k in nodes' && k != id
    ensures k in nodes && nodes'[k] == nodes[k]
  {
  }

  // ---------------------------------------------------------------- the handlers take such steps

  lemma EnrollNodes(s: State, networkId: string, draft: Node)
    requires networkId in s.networks && s.networks[networkId].id == networkId
    ensures var o := Enroll(s, networkId, draft);
            if o.result.Ok? then
              && OnlyAt(s.nodes, o.state.nodes, draft.id)
              && var node := o.state.nodes[draft.id];
                 && node.networkId == networkId
                 && node == draft.(networkId := networkId, ipv4 := node.ipv4, ipv6 := node.ipv6)
            else o.state.nodes == s.nodes
  {
  }

  /** The handler's outcome is such a step, as a file store keeps it. */
  ghost predicate StepOf(s: State, a: Action, o: Outcome) {
    NodeStep(File, s.nodes, a, o.result.Ok?, o.state.nodes)
  }

  lemma DraftIsNewborn(s: State, a: Action, node: Node)
    requires a.Register? && RegisterRefusal(s, a) == None
    requires node.networkId == s.tokens[a.token].networkId
    requires node == RegisterDraft(s, a).(networkId := node.networkId, ipv4 := node.ipv4, ipv6 := node.ipv6)
    ensures Newborn(s.nodes, a, node)
  {
  }

  lemma RegisterStep(s: State, a: Action)
    requires Safe(s) && a.Register? && a.nodeId !in s.nodes
    ensures StepOf(s, a, DoRegister(s, a))
  {
    if RegisterRefusal(s, a) == None {
      var id, draft := s.tokens[a.token].networkId, RegisterDraft(s, a);
      EnrollNodes(s, id, draft);
      if Enroll(s, id, draft).result.Ok? {
        DraftIsNewborn(s, a, Enroll(s, id, draft).state.nodes[a.nodeId]);
      }
    }
  }

  lemma RegisterUrlStep(s: State, a: Action)
    requires Safe(s) && a.RegisterUrl? && a.nodeId !in s.nodes
    ensures StepOf(s, a, DoRegisterUrl(s, a))
  {
    if RegisterUrlRefusal(s, a) == None {
      EnrollNodes(s, a.networkId, RegisterUrlDraft(a));
    }
  }

  lemma ApproveStep(s: State, a: Action)
    requires a.ApproveBySecret? || a.ApproveByAdmin?
    ensures a.ApproveBySecret? ==> StepOf(s, a, DoApproveBySecret(s, a))
    ensures a.ApproveByAdmin? ==> StepOf(s, a, DoApproveByAdmin(s, a))
  {
  }

  lemma UpdateIsChange(s: State, a: Action)
    requires a.UpdateNode? && UpdateRefusal(s, a) == None
    ensures Changed(s.nodes, a, s.nodes[a.nodeId], UpdatedNode(s.nodes[a.nodeId], a.newName, a.newTags))
  {
  }

  lemma UpdateStep(s: State, a: Action)
    requires a.UpdateNode? && NodesHoused(s.networks, s.nodes)
    ensures StepOf(s, a, DoUpdateNode(s, a))
  {
    UpdateOutcome(s, a);
    if UpdateRefusal(s, a) == None {
      assert Housed(s.networks, s.nodes[a.nodeId]);
      UpdateIsChange(s, a);
      SuccessfulChange(s.nodes, a, UpdatedNode(s.nodes[a.nodeId], a.newName, a.newTags));
    }
  }

  lemma SuccessfulChange(nodes: Nodes, a: Action, node': Node)
    requires ChangesNode(a) && TargetNode(a) in nodes
    requires SamePlace(nodes[TargetNode(a)], node') && Changed(nodes, a, nodes[TargetNode(a)], node')
    ensures Success(nodes, a, nodes[TargetNode(a) := node'])
  {
  }

  lemma RotateStep(s: State, a: Action)
    requires a.RotateKeys?
    ensures StepOf(s, a, DoRotateKeys(s, a))
  {
  }

  lemma RevokeHeartbeatStep(s: State, a: Action)
    requires a.RevokeNode? || a.Heartbeat?
    ensures a.RevokeNode? ==> StepOf(s, a, DoRevokeNode(s, a))
    ensures a.Heartbeat? ==> StepOf(s, a, DoHeartbeat(s, a))
  {
  }

  predicate LeavesNodes(a: Action) {
    a.CreateNetwork? || a.CreateToken? || a.RevokeToken? || a.UpdateAcl? || a.UpdateKeyPolicy? || a.DeleteNetwork?
  }

  lemma NodesLeft(s: State, a: Action)
    requires LeavesNodes(a) && !a.CreateNetwork?
    ensures Handle(s, a).state.nodes == s.nodes
  {
  }

  lemma CreateNetworkNodes(s: State, a: Action)
    requires a.CreateNetwork?
    ensures DoCreateNetwork(s, a).state.nodes == s.nodes
  {
  }

  lemma OtherStep(s: State, a: Action)
    requires LeavesNodes(a) || a.DeleteNode?
    ensures StepOf(s, a, Handle(s, a))
  {
    if a.CreateNetwork? {
      CreateNetworkNodes(s, a);
    } else if LeavesNodes(a) {
      NodesLeft(s, a);
    }
  }

  lemma NodeActionStep(s: State, a: Action)
    requires ChangesNode(a) && NodesHoused(s.networks, s.nodes)
    ensures StepOf(s, a, Handle(s, a))
  {
    match a
    case ApproveBySecret(_, _, _) => ApproveStep(s, a);
    case ApproveByAdmin(_, _) => ApproveStep(s, a);
    case UpdateNode(_, _, _) => UpdateStep(s, a);
    case RotateKeys(_, _, _, _, _, _) => RotateStep(s, a);
    case _ => RevokeHeartbeatStep(s, a);
  }

  lemma HandleNodes(s: State, a: Action)
    requires Safe(s) && Unused(s, a)
    ensures StepOf(s, a, Handle(s, a))
  {
    if a.Register? {
      RegisterStep(s, a);
    } else if a.RegisterUrl? {
      RegisterUrlStep(s, a);
    } else if ChangesNode(a) {
      NodeActionStep(s, a);
    } else {
      OtherStep(s, a);
    }
  }

  lemma WriteNodes(b: Backend, s: State, a: Action)
    requires Safe(s) && Unused(s, a)
    ensures NodeStep(b, s.nodes, a, Handle(s, a).result.Ok?, Write(b, s, a).nodes)
  {
    HandleNodes(s, a);
  }

  // ---------------------------------------------------------------- traces

  ghost predicate StepAt(b: Backend, nodes: seq<Nodes>, actions: seq<Action>, ok: seq<bool>, i: nat)
    requires i < |actions| == |ok| && |nodes| == |actions| + 1
  {
    NodeStep(b, nodes[i], actions[i], ok[i], nodes[i + 1])
  }

  ghost predicate NodeTrace(b: Backend, nodes: seq<Nodes>, actions: seq<Action>, ok: seq<bool>) {
    && |nodes| == |actions| + 1 && |ok| == |actions|
    && nodes[0] == map[]
    && (forall i | 0 <= i < |actions| :: StepAt(b, nodes, actions, ok, i))
    && (forall i, j | 0 <= i < j < |actions| :: DrawApart(actions[i], actions[j]))
  }

  function NodesOf(states: seq<State>): (r: seq<Nodes>) {
    seq(|states|, i requires 0 <= i < |states| => states[i].nodes)
  }

  /** Every run, under either store, is such a trace. */
  lemma RunIsNodeTrace(b: Backend, states: seq<State>, actions: seq<Action>)
    requires Run(b, states, actions)
    ensures NodeTrace(b, NodesOf(states), actions, Outcomes(states, actions))
  {
    forall i | 0 <= i < |actions|
      ensures StepAt(b, NodesOf(states), actions, Outcomes(states, actions), i)
    {
      RunSafe(b, states, actions, i);
      DrawsAreUnused(b, states, actions, i);
      WriteNodes(b, states[i], actions[i]);
      assert Follows(b, states, actions, i);
    }
  }

  // ---------------------------------------------------------------- lives

  /** Step `j` registers the node `k`. */
  ghost predicate Birth(actions: seq<Action>, ok: seq<bool>, j: nat, k: string) {
    && j < |actions| == |ok| && ok[j]
    && (actions[j].Register? || actions[j].RegisterUrl?) && actions[j].nodeId == k
  }

  /** A stored node was registered at an earlier step. */
  lemma {:induction false} BornOnce(b: Backend, nodes: seq<Nodes>, actions: seq<Action>, ok: seq<bool>, n: nat,
                                    k: string)
    returns (j: nat)
    requires NodeTrace(b, nodes, actions, ok) && n <= |actions| && k in nodes[n]
    ensures j < n && Birth(actions, ok, j, k)
  {
    assert n > 0;
    if k in nodes[n - 1] {
      j := BornOnce(b, nodes, actions, ok, n - 1, k);
    } else {
      j := n - 1;
      BornHere(b, nodes, actions, ok, n - 1, k);
    }
  }

  lemma BornHere(b: Backend, nodes: seq<Nodes>, actions: seq<Action>, ok: seq<bool>, n: nat, k: string)
    requires NodeTrace(b, nodes, actions, ok) && n < |actions| && k !in nodes[n] && k in nodes[n + 1]
    ensures Birth(actions, ok, n, k)
  {
    assert StepAt(b, nodes, actions, ok, n);
    AddedByBirth(b, nodes[n], actions[n], ok[n], nodes[n + 1], k);
  }

  lemma AddedByBirth(b: Backend, nodes: Nodes, a: Action, ok: bool, nodes': Nodes, k: string)
    requires NodeStep(b, nodes, a, ok, nodes') && k !in nodes && k in nodes'
    ensures ok && (a.Register? || a.RegisterUrl?) && a.nodeId == k
  {
    if ok && !Concerns(a, k) {
      Unconcerned(nodes, a, nodes', k);
    }
  }

  lemma NotReborn(b: Backend, nodes: seq<Nodes>, actions: seq<Action>, ok: seq<bool>, j: nat, n: nat, k: string)
    requires NodeTrace(b, nodes, actions, ok) && Birth(actions, ok, j, k) && j < n < |actions| && k !in nodes[n]
    ensures k !in nodes[n + 1]
  {
    if k in nodes[n + 1] {
      BornHere(b, nodes, actions, ok, n, k);
      DrawnTwice(actions[j], actions[n], k);
    }
  }

  lemma DrawnTwice(a: Action, b: Action, k: string)
    requires (a.Register? || a.RegisterUrl?) && a.nodeId == k && (b.Register? || b.RegisterUrl?) && b.nodeId == k
    ensures !DrawApart(a, b)
  {
  }

  /** Between its registration and now a stored node was always there. */
  lemma {:induction false} AliveSince(b: Backend, nodes: seq<Nodes>, actions: seq<Action>, ok: seq<bool>, j: nat,
                                      i: nat, n: nat, k: string)
    requires NodeTrace(b, nodes, actions, ok) && Birth(actions, ok, j, k) && j < i <= n <= |actions| && k in nodes[n]
    ensures k in nodes[i]
  {
    if i < n {
      if k !in nodes[n - 1] {
        NotReborn(b, nodes, actions, ok, j, n - 1, k);
        assert false;
      }
      AliveSince(b, nodes, actions, ok, j, i, n - 1, k);
    }
  }

  /** A node stored at two times was there all the time between. */
  lemma AliveBetween(b: Backend, nodes: seq<Nodes>, actions: seq<Action>, ok: seq<bool>, m: nat, i: nat, n: nat,
                     k: string)
    requires NodeTrace(b, nodes, actions, ok) && m <= i <= n <= |actions| && k in nodes[m] && k in nodes[n]
    ensures k in nodes[i]
  {
    var j := BornOnce(b, nodes, actions, ok, m, k);
    AliveSince(b, nodes, actions, ok, j, i, n, k);
  }
}
