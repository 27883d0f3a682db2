/**
 Runs of the control plane from the default state under either store, and what they keep
 about addresses.  Every action draws identifiers and secrets of its own.
 */
module Runs {
  import opened Base
  import opened Model
  import opened Overlay
  import opened Handlers
  import opened ControlState
  import opened Addresses

  // ---------------------------------------------------------------- runs

  function DrawnNode(a: Action): (id: Option<string>) {
    match a
    case Register(_, _, _, _, nodeId, _, _) => Some(nodeId)
    case RegisterUrl(_, _, _, _, _, nodeId, _, _, _) => Some(nodeId)
    case _ => None
  }

  function DrawnToken(a: Action): (secret: Option<string>) {
    match a
    case CreateNetwork(_, _, _, _, _, _, _, secret, _) => Some(secret)
    case CreateToken(_, _, _, _, secret, _) => Some(secret)
    case _ => None
  }

  function DrawnNetwork(a: Action): (id: Option<string>) {
    match a
    case CreateNetwork(id, _, _, _, _, _, _, _, _) => Some(id)
    case _ => None
  }

  predicate DrawApart(a: Action, b: Action) {
    && (DrawnNode(a).Some? ==> DrawnNode(a) != DrawnNode(b))
    && (DrawnToken(a).Some? ==> DrawnToken(a) != DrawnToken(b))
    && (DrawnNetwork(a).Some? ==> DrawnNetwork(a) != DrawnNetwork(b))
  }

  ghost predicate Follows(b: Backend, states: seq<State>, actions: seq<Action>, i: nat)
    requires i < |actions| && |states| == |actions| + 1
  {
    states[i + 1] == Write(b, states[i], actions[i])
  }

  ghost predicate Run(b: Backend, states: seq<State>, actions: seq<Action>) {
    && |states| == |actions| + 1
    && states[0] == DEFAULT_STATE
    && (forall i | 0 <= i < |actions| :: Follows(b, states, actions, i))
    && (forall i, j | 0 <= i < j < |actions| :: DrawApart(actions[i], actions[j]))
  }

  /** The action of step `i` reported success. */
  ghost predicate Succeeds(states: seq<State>, actions: seq<Action>, i: nat)
    requires i < |actions| && |states| == |actions| + 1
  {
    Handle(states[i], actions[i]).result.Ok?
  }

  /** Which actions of a run reported success. */
  ghost function Outcomes(states: seq<State>, actions: seq<Action>): (r: seq<bool>)
    requires |states| == |actions| + 1
  {
    seq(|actions|, i requires 0 <= i < |actions| => Succeeds(states, actions, i))
  }

  // ---------------------------------------------------------------- where keys come from

  lemma EnrollKeys(s: State, networkId: string, draft: Node)
    requires networkId in s.networks
    ensures var s' := Enroll(s, networkId, draft).state;
            && s'.tokens == s.tokens
            && (forall k <- s'.networks :: k in s.networks)
            && (forall k <- s'.nodes :: k in s.nodes || k == draft.id)
  {
  }

  /** New keys are drawn by the action that adds them. */
  ghost predicate KeysDrawn(s: State, a: Action, s': State) {
    && (forall k <- s'.nodes :: k in s.nodes || DrawnNode(a) == Some(k))
    && (forall k <- s'.tokens :: k in s.tokens || DrawnToken(a) == Some(k))
    && (forall k <- s'.networks :: k in s.networks || DrawnNetwork(a) == Some(k))
  }

  lemma RegisterKeys(s: State, a: Action)
    requires a.Register?
    ensures KeysDrawn(s, a, DoRegister(s, a).state)
  {
    if RegisterRefusal(s, a) == None {
      EnrollKeys(s, s.tokens[a.token].networkId, RegisterDraft(s, a));
    }
  }

  lemma RegisterUrlKeys(s: State, a: Action)
    requires a.RegisterUrl?
    ensures KeysDrawn(s, a, DoRegisterUrl(s, a).state)
  {
    if RegisterUrlRefusal(s, a) == None {
      EnrollKeys(s, a.networkId, RegisterUrlDraft(a));
    }
  }

  lemma NetworkTokenKeys(s: State, a: Action)
    requires a.CreateNetwork? || a.CreateToken? || a.RevokeToken?
    ensures KeysDrawn(s, a, Handle(s, a).state)
  {
  }

  lemma OtherKeys(s: State, a: Action)
    requires a.UpdateAcl? || a.UpdateKeyPolicy? || a.DeleteNode?
    ensures KeysDrawn(s, a, Handle(s, a).state)
  {
  }

  lemma DeleteNetworkKeys(s: State, a: Action)
    requires a.DeleteNetwork?
    ensures KeysDrawn(s, a, DoDeleteNetwork(s, a).state)
  {
  }

  lemma HandleKeys(s: State, a: Action)
    ensures KeysDrawn(s, a, Handle(s, a).state)
  {
    if ChangesNode(a) {
      NodeActionShape(s, a);
    } else if a.Register? {
      RegisterKeys(s, a);
    } else if a.RegisterUrl? {
      RegisterUrlKeys(s, a);
    } else if a.CreateNetwork? || a.CreateToken? || a.RevokeToken? {
      NetworkTokenKeys(s, a);
    } else if a.DeleteNetwork? {
      DeleteNetworkKeys(s, a);
    } else {
      OtherKeys(s, a);
    }
  }

  lemma WriteKeys(b: Backend, s: State, a: Action)
    ensures KeysDrawn(s, a, Write(b, s, a))
  {
    HandleKeys(s, a);
  }

  /** Every key in a state was drawn at some earlier step. */
  ghost predicate Drawn(actions: seq<Action>, n: nat, draw: Action -> Option<string>, k: string)
    requires n <= |actions|
  {
    exists i :: 0 <= i < n && draw(actions[i]) == Some(k)
  }

  lemma {:induction false} AllDrawn(b: Backend, states: seq<State>, actions: seq<Action>, n: nat)
    requires Run(b, states, actions) && n <= |actions|
    ensures forall k <- states[n].nodes :: Drawn(actions, n, DrawnNode, k)
    ensures forall k <- states[n].tokens :: Drawn(actions, n, DrawnToken, k)
    ensures forall k <- states[n].networks :: Drawn(actions, n, DrawnNetwork, k)
  {
    if n > 0 {
      AllDrawn(b, states, actions, n - 1);
      WriteKeys(b, states[n - 1], actions[n - 1]);
      assert Follows(b, states, actions, n - 1);
      forall draw: Action -> Option<string>, k: string |
        Drawn(actions, n - 1, draw, k) || draw(actions[n - 1]) == Some(k)
        ensures Drawn(actions, n, draw, k)
      {
        if Drawn(actions, n - 1, draw, k) {
          var i :| 0 <= i < n - 1 && draw(actions[i]) == Some(k);
          assert draw(actions[i]) == Some(k);
        }
      }
    }
  }

  lemma DrawsAreUnused(b: Backend, states: seq<State>, actions: seq<Action>, n: nat)
    requires Run(b, states, actions) && n < |actions|
    ensures Unused(states[n], actions[n])
    ensures DrawnNetwork(actions[n]).Some? ==> DrawnNetwork(actions[n]).value !in states[n].networks
    ensures DrawnToken(actions[n]).Some? ==> DrawnToken(actions[n]).value !in states[n].tokens
    ensures DrawnNode(actions[n]).Some? ==> DrawnNode(actions[n]).value !in states[n].nodes
  {
    AllDrawn(b, states, actions, n);
    assert forall i | 0 <= i < n :: DrawApart(actions[i], actions[n]);
  }

  // ---------------------------------------------------------------- address safety

  lemma {:induction false} RunSafe(b: Backend, states: seq<State>, actions: seq<Action>, n: nat)
    requires Run(b, states, actions) && n <= |actions|
    ensures Safe(states[n])
  {
    if n > 0 {
      RunSafe(b, states, actions, n - 1);
      DrawsAreUnused(b, states, actions, n - 1);
      WriteSafe(b, states[n - 1], actions[n - 1]);
      assert Follows(b, states, actions, n - 1);
    }
  }

  /**
   Global address safety, in every state of every run under either store, failed writes
   and deletions included.
   */
  lemma AddressesUnique(b: Backend, states: seq<State>, actions: seq<Action>, n: nat, j: string, k: string)
    requires Run(b, states, actions) && n <= |actions| && j in states[n].nodes && k in states[n].nodes
    ensures j != k ==>
              states[n].nodes[j].ipv4 != states[n].nodes[k].ipv4 && states[n].nodes[j].ipv6 != states[n].nodes[k].ipv6
    ensures states[n].nodes[k].networkId in states[n].networks
    ensures var net := states[n].networks[states[n].nodes[k].networkId];
            && First(net.overlay4, 32) < states[n].nodes[k].ipv4 < First(net.overlay4, 32) + Size(net.overlay4, 32) - 1
            && Contains(net.overlay6, 128, states[n].nodes[k].ipv6)
  {
    RunSafe(b, states, actions, n);
    assert Housed(states[n].networks, states[n].nodes[k]);
    SafeMeansUnique(states[n], j, k);
  }

  // ---------------------------------------------------------------- offsets are never reissued

  /** Networks that remain keep their overlay, and their cursors only advance. */
  ghost predicate NetworksAdvance(s: State, s': State) {
    forall k <- s.networks | k in s'.networks :: SameOverlay(s.networks[k], s'.networks[k])
  }

  lemma EnrolledNetworks(s: State, networkId: string, draft: Node)
    requires networkId in s.networks
    ensures Enroll(s, networkId, draft).state.networks
         == s.networks[networkId := Allocate(s.networks[networkId]).network]
  {
  }

  lemma EnrollAdvances(s: State, networkId: string, draft: Node)
    requires networkId in s.networks && CursorsOk(s.networks[networkId])
    ensures NetworksAdvance(s, Enroll(s, networkId, draft).state)
  {
    AllocatedOverlay(s.networks[networkId]);
    EnrolledNetworks(s, networkId, draft);
  }

  lemma RegisterAdvances(s: State, a: Action)
    requires CursorsInOrder(s.networks) && a.Register?
    ensures NetworksAdvance(s, DoRegister(s, a).state)
  {
    if RegisterRefusal(s, a) == None {
      EnrollAdvances(s, s.tokens[a.token].networkId, RegisterDraft(s, a));
    }
  }

  lemma RegisterUrlAdvances(s: State, a: Action)
    requires CursorsInOrder(s.networks) && a.RegisterUrl?
    ensures NetworksAdvance(s, DoRegisterUrl(s, a).state)
  {
    if RegisterUrlRefusal(s, a) == None {
      EnrollAdvances(s, a.networkId, RegisterUrlDraft(a));
    }
  }

  lemma CreateNetworkAdvances(s: State, a: Action)
    requires a.CreateNetwork? && a.networkId !in s.networks
    ensures NetworksAdvance(s, DoCreateNetwork(s, a).state)
  {
  }

  lemma NetworkActionAdvances(s: State, a: Action)
    requires a.UpdateAcl? || a.UpdateKeyPolicy? || a.DeleteNetwork?
    ensures NetworksAdvance(s, Handle(s, a).state)
  {
  }

  lemma HandleAdvances(s: State, a: Action)
    requires Safe(s) && (a.CreateNetwork? ==> a.networkId !in s.networks)
    ensures NetworksAdvance(s, Handle(s, a).state)
  {
    if ChangesNode(a) {
      NodeActionShape(s, a);
    } else if a.Register? {
      RegisterAdvances(s, a);
    } else if a.RegisterUrl? {
      RegisterUrlAdvances(s, a);
    } else if a.CreateNetwork? {
      CreateNetworkAdvances(s, a);
    } else if a.UpdateAcl? || a.UpdateKeyPolicy? || a.DeleteNetwork? {
      NetworkActionAdvances(s, a);
    } else {
      OtherwiseSameNetworks(s, a);
    }
  }

  lemma OtherwiseSameNetworks(s: State, a: Action)
    requires a.CreateToken? || a.RevokeToken? || a.DeleteNode?
    ensures Handle(s, a).state.networks == s.networks
  {
  }

  lemma WriteAdvances(b: Backend, s: State, a: Action)
    requires Safe(s) && (a.CreateNetwork? ==> a.networkId !in s.networks)
    ensures NetworksAdvance(s, Write(b, s, a))
  {
    HandleAdvances(s, a);
  }

  lemma {:induction false} CursorsAdvance(b: Backend, states: seq<State>, actions: seq<Action>, m: nat, n: nat,
                                          k: string)
    requires Run(b, states, actions) && m <= n <= |actions|
    requires k in states[m].networks && k in states[n].networks
    ensures SameOverlay(states[m].networks[k], states[n].networks[k])
  {
    if m < n {
      DrawnOnce(b, states, actions, m, n - 1, k);
      CursorsAdvance(b, states, actions, m, n - 1, k);
      StepAdvances(b, states, actions, n - 1);
      assert SameOverlay(states[n - 1].networks[k], states[n].networks[k]);
    }
  }

  lemma StepAdvances(b: Backend, states: seq<State>, actions: seq<Action>, n: nat)
    requires Run(b, states, actions) && n < |actions|
    ensures NetworksAdvance(states[n], states[n + 1])
  {
    RunSafe(b, states, actions, n);
    DrawsAreUnused(b, states, actions, n);
    WriteAdvances(b, states[n], actions[n]);
    assert Follows(b, states, actions, n);
  }

  /** A network that was there before and is there after the step was there just before it. */
  lemma DrawnOnce(b: Backend, states: seq<State>, actions: seq<Action>, m: nat, n: nat, k: string)
    requires Run(b, states, actions) && m <= n < |actions|
    requires k in states[m].networks && k in states[n + 1].networks
    ensures k in states[n].networks
  {
    WriteKeys(b, states[n], actions[n]);
    assert Follows(b, states, actions, n);
    AllDrawn(b, states, actions, m);
    assert forall i | 0 <= i < n :: DrawApart(actions[i], actions[n]);
  }

  /** A successful registration of either kind. */
  ghost predicate Enrolls(states: seq<State>, actions: seq<Action>, i: nat)
    requires i < |actions| && |states| == |actions| + 1
  {
    DrawnNode(actions[i]).Some? && Succeeds(states, actions, i)
  }

  function NewNodeId(a: Action): (id: string)
    requires DrawnNode(a).Some?
  {
    DrawnNode(a).value
  }

  /** The addresses are beyond everything passed in the network before. */
  ghost predicate Beyond(n: Network, node: Node) {
    forall ip4: nat, ip6: nat | Passed(n, ip4, ip6) :: ip4 < node.ipv4 && ip6 < node.ipv6
  }

  lemma EnrollGrants(s: State, networkId: string, draft: Node)
    requires Safe(s) && networkId in s.networks
    ensures var o := Enroll(s, networkId, draft);
            o.result.Ok? ==>
              && draft.id in o.state.nodes && o.state.nodes[draft.id].networkId == networkId
              && networkId in o.state.networks
              && Passed(o.state.networks[networkId], o.state.nodes[draft.id].ipv4, o.state.nodes[draft.id].ipv6)
              && Beyond(s.networks[networkId], o.state.nodes[draft.id])
  {
    var n := s.networks[networkId];
    if Allocate(n).result.Ok? {
      forall ip4: nat, ip6: nat
        ensures Passed(n, ip4, ip6) ==> ip4 < Allocate(n).result.value.0 && ip6 < Allocate(n).result.value.1
      {
        AllocatedIsNew(n, ip4, ip6);
      }
      AllocatedIsNew(n, 0, 0);
    }
  }

  /** What a successful registration does: its node is new, beyond everything passed before. */
  lemma RegistrationGrants(s: State, a: Action) returns (networkId: string)
    requires Safe(s) && DrawnNode(a).Some? && Handle(s, a).result.Ok?
    ensures var s', id := Handle(s, a).state, NewNodeId(a);
            && networkId in s.networks && networkId in s'.networks
            && id in s'.nodes && s'.nodes[id].networkId == networkId
            && Passed(s'.networks[networkId], s'.nodes[id].ipv4, s'.nodes[id].ipv6)
            && Beyond(s.networks[networkId], s'.nodes[id])
  {
    if a.Register? {
      networkId := s.tokens[a.token].networkId;
      EnrollGrants(s, networkId, RegisterDraft(s, a));
    } else {
      networkId := a.networkId;
      EnrollGrants(s, networkId, RegisterUrlDraft(a));
    }
  }

  lemma GrantAt(b: Backend, states: seq<State>, actions: seq<Action>, i: nat) returns (networkId: string)
    requires Run(b, states, actions) && i < |actions| && Enrolls(states, actions, i)
    ensures networkId in states[i].networks && networkId in states[i + 1].networks
    ensures NewNodeId(actions[i]) in states[i + 1].nodes
    ensures var node := states[i + 1].nodes[NewNodeId(actions[i])];
            node.networkId == networkId && Passed(states[i + 1].networks[networkId], node.ipv4, node.ipv6)
            && Beyond(states[i].networks[networkId], node)
  {
    RunSafe(b, states, actions, i);
    networkId := RegistrationGrants(states[i], actions[i]);
    assert Follows(b, states, actions, i);
  }

  lemma LaterIsLarger(b: Backend, states: seq<State>, actions: seq<Action>, i: nat, j: nat, k: string, first: Node,
                      second: Node)
    requires Run(b, states, actions) && i < j < |actions| && k in states[i + 1].networks && k in states[j].networks
    requires Passed(states[i + 1].networks[k], first.ipv4, first.ipv6) && Beyond(states[j].networks[k], second)
    ensures first.ipv4 < second.ipv4 && first.ipv6 < second.ipv6
  {
    CursorsAdvance(b, states, actions, i + 1, j, k);
    PassedStays(states[i + 1].networks[k], states[j].networks[k], first.ipv4, first.ipv6);
  }

  /**
   No offset is issued twice during a network's life: of two registrations in one network
   the later one gets larger addresses of both kinds, whatever happened in between.
   */
  lemma OffsetsNeverReissued(b: Backend, states: seq<State>, actions: seq<Action>, i: nat, j: nat)
    requires Run(b, states, actions) && i < j < |actions| && Enrolls(states, actions, i) && Enrolls(states, actions, j)
    requires NewNodeId(actions[i]) in states[i + 1].nodes && NewNodeId(actions[j]) in states[j + 1].nodes
    ensures var first, second := states[i + 1].nodes[NewNodeId(actions[i])], states[j + 1].nodes[NewNodeId(actions[j])];
            first.networkId == second.networkId ==> first.ipv4 < second.ipv4 && first.ipv6 < second.ipv6
  {
    var m := GrantAt(b, states, actions, i);
    var n := GrantAt(b, states, actions, j);
    var first := states[i + 1].nodes[NewNodeId(actions[i])];
    var second := states[j + 1].nodes[NewNodeId(actions[j])];
    if m == n {
      LaterIsLarger(b, states, actions, i, j, m, first, second);
    }
  }
}
