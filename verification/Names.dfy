/**
 Node names over whole runs.  Unrevoked nodes of a network have different names, ignoring
 ASCII case, until a rotation of keys brings back a revoked node whose name was given
 away; that is the only way to lose it.
 */
module Names {
  import opened Base
  import opened Text
  import opened Model
  import opened Handlers
  import opened ControlState
  import opened Addresses
  import opened Runs
  import opened NodeRuns

  predicate Clash(a: Node, b: Node) {
    && a.networkId == b.networkId
    && a.revokedAt == None && b.revokedAt == None
    && SameIgnoringCase(a.name, b.name)
  }

  ghost predicate UniqueNames(nodes: Nodes) {
    forall j <- nodes, k <- nodes | j != k :: !Clash(nodes[j], nodes[k])
  }

  /** Node names are never empty and have no outer whitespace. */
  predicate ProperName(node: Node) {
    node.name != "" && Trim(node.name) == node.name
  }

  ghost predicate ProperNames(nodes: Nodes) {
    forall k <- nodes :: ProperName(nodes[k])
  }

  /** The rotation will succeed and revive a revoked node whose name another node has by now. */
  ghost predicate Resurrects(nodes: Nodes, a: Action) {
    && RotationAllowed(nodes, a) && nodes[a.nodeId].revokedAt.Some?
    && NameTaken(nodes, nodes[a.nodeId].networkId, nodes[a.nodeId].name, Some(a.nodeId))
  }

  // ---------------------------------------------------------------- one step

  /** A node that nobody clashes with may be put into the map. */
  lemma PutUnique(nodes: Nodes, k: string, node: Node)
    requires UniqueNames(nodes) && forall j <- nodes | j != k :: !Clash(nodes[j], node)
    ensures UniqueNames(nodes[k := node])
  {
    var nodes' := nodes[k := node];
    forall i <- nodes', j <- nodes' | i != j
      ensures !Clash(nodes'[i], nodes'[j])
    {
      if i == k {
        assert !Clash(nodes[j], node);
      }
    }
  }

  lemma FreeName(nodes: Nodes, k: string, node: Node)
    requires NodesKeyed(nodes) && node.id == k
    requires node.revokedAt.Some? || !NameTaken(nodes, node.networkId, node.name, Some(k))
    ensures forall j <- nodes | j != k :: !Clash(nodes[j], node)
  {
    forall j <- nodes | j != k
      ensures !Clash(nodes[j], node)
    {
      assert node.revokedAt == None ==> !Claims(nodes[j], node.networkId, node.name, Some(k));
    }
  }

  lemma NewbornUnique(nodes: Nodes, a: Action, node: Node)
    requires NodesKeyed(nodes) && UniqueNames(nodes) && (a.Register? || a.RegisterUrl?) && Newborn(nodes, a, node)
    ensures UniqueNames(nodes[a.nodeId := node])
  {
    forall j <- nodes
      ensures !Clash(nodes[j], node)
    {
      assert !Claims(nodes[j], node.networkId, node.name, None);
    }
    PutUnique(nodes, a.nodeId, node);
  }

  /** A change that neither renames nor revives a node creates no clash. */
  lemma QuietChangeUnique(nodes: Nodes, k: string, node: Node)
    requires UniqueNames(nodes) && k in nodes && node.networkId == nodes[k].networkId && node.name == nodes[k].name
    requires node.revokedAt.Some? || nodes[k].revokedAt == None
    ensures UniqueNames(nodes[k := node])
  {
    forall j <- nodes | j != k
      ensures !Clash(nodes[j], node)
    {
      assert !Clash(nodes[j], nodes[k]);
    }
    PutUnique(nodes, k, node);
  }

  lemma UpdateUnique(nodes: Nodes, a: Action, node: Node)
    requires NodesKeyed(nodes) && UniqueNames(nodes) && a.UpdateNode? && a.nodeId in nodes
    requires SamePlace(nodes[a.nodeId], node) && Changed(nodes, a, nodes[a.nodeId], node)
    ensures UniqueNames(nodes[a.nodeId := node])
  {
    if node.name == nodes[a.nodeId].name {
      QuietChangeUnique(nodes, a.nodeId, node);
    } else {
      FreeName(nodes, a.nodeId, node);
      PutUnique(nodes, a.nodeId, node);
    }
  }

  lemma RotatedNames(node: Node, newMachineKey: Option<string>, newWgKey: Option<string>, now: int)
    ensures var n := Rotated(node, newMachineKey, newWgKey, now);
            n.id == node.id && n.name == node.name && n.networkId == node.networkId && n.revokedAt == node.revokedAt
  {
  }

  /** Reviving a node clashes exactly if its name is taken. */
  lemma RotateUnique(nodes: Nodes, a: Action, node: Node)
    requires NodesKeyed(nodes) && UniqueNames(nodes) && a.RotateKeys? && a.nodeId in nodes
    requires Changed(nodes, a, nodes[a.nodeId], node)
    ensures UniqueNames(nodes[a.nodeId := node]) <==> !Resurrects(nodes, a)
  {
    RotatedNames(nodes[a.nodeId], a.newMachineKey, a.newWgKey, a.now);
    if nodes[a.nodeId].revokedAt == None {
      QuietChangeUnique(nodes, a.nodeId, node);
    } else if Resurrects(nodes, a) {
      var k :| k in nodes && Claims(nodes[k], node.networkId, node.name, Some(a.nodeId));
      ClashFound(nodes[a.nodeId := node], a.nodeId, k);
    } else {
      FreeName(nodes, a.nodeId, node);
      PutUnique(nodes, a.nodeId, node);
    }
  }

  lemma ClashFound(nodes: Nodes, j: string, k: string)
    requires j in nodes && k in nodes && j != k && Clash(nodes[j], nodes[k])
    ensures !UniqueNames(nodes)
  {
  }

  lemma ChangedUnique(nodes: Nodes, a: Action, node: Node)
    requires NodesKeyed(nodes) && UniqueNames(nodes) && ChangesNode(a) && TargetNode(a) in nodes
    requires SamePlace(nodes[TargetNode(a)], node) && Changed(nodes, a, nodes[TargetNode(a)], node)
    ensures UniqueNames(nodes[TargetNode(a) := node]) <==> !Resurrects(nodes, a)
  {
    if a.UpdateNode? {
      UpdateUnique(nodes, a, node);
    } else if a.RotateKeys? {
      RotateUnique(nodes, a, node);
    } else {
      OtherChangeQuiet(nodes, a, nodes[TargetNode(a)], node);
      QuietChangeUnique(nodes, TargetNode(a), node);
    }
  }

  lemma OtherChangeQuiet(nodes: Nodes, a: Action, node: Node, node': Node)
    requires ChangesNode(a) && !a.UpdateNode? && !a.RotateKeys? && Changed(nodes, a, node, node')
    ensures node'.name == node.name && (node'.revokedAt.Some? || node.revokedAt == None)
  {
  }

  lemma DropUnique(nodes: Nodes, k: string)
    requires UniqueNames(nodes)
    ensures UniqueNames(nodes - {k})
  {
  }

  lemma PartialUnique(nodes: Nodes, a: Action)
    requires UniqueNames(nodes) && PartialRotation(nodes, a)
    ensures UniqueNames(nodes[a.nodeId := RotateMachine(nodes[a.nodeId], a.newMachineKey.value, a.now)])
  {
    QuietChangeUnique(nodes, a.nodeId, RotateMachine(nodes[a.nodeId], a.newMachineKey.value, a.now));
  }

  lemma SuccessUnique(nodes: Nodes, a: Action, nodes': Nodes)
    requires NodesKeyed(nodes) && UniqueNames(nodes) && Success(nodes, a, nodes')
    ensures UniqueNames(nodes') <==> !Resurrects(nodes, a)
  {
    if a.Register? || a.RegisterUrl? {
      NewbornUnique(nodes, a, nodes'[a.nodeId]);
    } else if ChangesNode(a) {
      ChangedUnique(nodes, a, nodes'[TargetNode(a)]);
    } else if a.DeleteNode? {
      DropUnique(nodes, a.nodeId);
    }
  }

  /** A step keeps names unique if and only if it is not such a rotation. */
  lemma StepUnique(b: Backend, nodes: Nodes, a: Action, ok: bool, nodes': Nodes)
    requires NodesKeyed(nodes) && UniqueNames(nodes) && NodeStep(b, nodes, a, ok, nodes')
    ensures UniqueNames(nodes') <==> !Resurrects(nodes, a)
  {
    if ok {
      SuccessUnique(nodes, a, nodes');
    } else if b.File? && PartialRotation(nodes, a) {
      PartialUnique(nodes, a);
    }
  }

  // ---------------------------------------------------------------- proper names

  lemma ChangedProper(nodes: Nodes, a: Action, node: Node, node': Node)
    requires ProperName(node) && ChangesNode(a) && Changed(nodes, a, node, node')
    ensures ProperName(node')
  {
    if a.RotateKeys? {
      RotatedNames(node, a.newMachineKey, a.newWgKey, a.now);
    } else if a.UpdateNode? && a.newName.Some? {
      TrimTwice(a.newName.value);
    }
  }

  lemma NewbornProper(nodes: Nodes, a: Action, node: Node)
    requires (a.Register? || a.RegisterUrl?) && Newborn(nodes, a, node)
    ensures ProperName(node) && node.id == a.nodeId
  {
    TrimTwice(a.name);
  }

  lemma SuccessProper(nodes: Nodes, a: Action, nodes': Nodes, k: string)
    requires NodesKeyed(nodes) && ProperNames(nodes) && Success(nodes, a, nodes') && k in nodes'
    ensures ProperName(nodes'[k]) && nodes'[k].id == k
  {
    if (a.Register? || a.RegisterUrl?) && a.nodeId == k {
      NewbornProper(nodes, a, nodes'[k]);
    } else if ChangesNode(a) && TargetNode(a) == k {
      ChangedProper(nodes, a, nodes[k], nodes'[k]);
    } else {
      Unconcerned(nodes, a, nodes', k);
    }
  }

  lemma StepProper(b: Backend, nodes: Nodes, a: Action, ok: bool, nodes': Nodes, k: string)
    requires NodesKeyed(nodes) && ProperNames(nodes) && NodeStep(b, nodes, a, ok, nodes') && k in nodes'
    ensures ProperName(nodes'[k]) && nodes'[k].id == k
  {
    if ok {
      SuccessProper(nodes, a, nodes', k);
    } else if b.File? && PartialRotation(nodes, a) && k == a.nodeId {
      assert ProperName(nodes[k]);
    }
  }

  // ---------------------------------------------------------------- whole runs

  lemma {:induction false} TraceProper(b: Backend, nodes: seq<Nodes>, actions: seq<Action>, ok: seq<bool>, n: nat)
    requires NodeTrace(b, nodes, actions, ok) && n <= |actions|
    ensures NodesKeyed(nodes[n]) && ProperNames(nodes[n])
  {
    if n > 0 {
      TraceProper(b, nodes, actions, ok, n - 1);
      assert StepAt(b, nodes, actions, ok, n - 1);
      forall k <- nodes[n]
        ensures ProperName(nodes[n][k]) && nodes[n][k].id == k
      {
        StepProper(b, nodes[n - 1], actions[n - 1], ok[n - 1], nodes[n], k);
      }
    }
  }

  ghost predicate Harmless(nodes: seq<Nodes>, actions: seq<Action>, n: nat)
    requires n <= |actions| < |nodes|
  {
    forall i | 0 <= i < n :: !Resurrects(nodes[i], actions[i])
  }

  ghost predicate AlwaysUnique(nodes: seq<Nodes>, n: nat)
    requires n < |nodes|
  {
    forall i | 0 <= i <= n :: UniqueNames(nodes[i])
  }

  lemma {:induction false} TraceUnique(b: Backend, nodes: seq<Nodes>, actions: seq<Action>, ok: seq<bool>, n: nat)
    requires NodeTrace(b, nodes, actions, ok) && n <= |actions|
    ensures AlwaysUnique(nodes, n) <==> Harmless(nodes, actions, n)
  {
    if n > 0 {
      TraceUnique(b, nodes, actions, ok, n - 1);
      if AlwaysUnique(nodes, n - 1) {
        UniqueStep(b, nodes, actions, ok, n - 1);
      }
    }
  }

  lemma UniqueStep(b: Backend, nodes: seq<Nodes>, actions: seq<Action>, ok: seq<bool>, n: nat)
    requires NodeTrace(b, nodes, actions, ok) && n < |actions| && UniqueNames(nodes[n])
    ensures UniqueNames(nodes[n + 1]) <==> !Resurrects(nodes[n], actions[n])
  {
    TraceProper(b, nodes, actions, ok, n);
    assert StepAt(b, nodes, actions, ok, n);
    StepUnique(b, nodes[n], actions[n], ok[n], nodes[n + 1]);
  }

  /**
   On every run under either store, names stay unique if and only if no rotation revives a
   node whose name is taken; and all names are proper throughout.
   */
  lemma NamesUniqueIff(b: Backend, states: seq<State>, actions: seq<Action>, n: nat)
    requires Run(b, states, actions) && n <= |actions|
    ensures AlwaysUnique(NodesOf(states), n) <==> Harmless(NodesOf(states), actions, n)
    ensures ProperNames(states[n].nodes)
  {
    RunIsNodeTrace(b, states, actions);
    TraceUnique(b, NodesOf(states), actions, Outcomes(states, actions), n);
    TraceProper(b, NodesOf(states), actions, Outcomes(states, actions), n);
  }
}
