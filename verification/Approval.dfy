/**
 The approval life cycle over whole runs: when a node is approved, and what becomes of the
 secret it was registered with.
 */
module Approval {
  import opened Base
  import opened Model
  import opened Handlers
  import opened ControlState
  import opened Addresses
  import opened Runs
  import opened NodeRuns

  datatype Standing = Standing(approved: bool, approvedAt: Option<int>, secret: Option<string>, expires: Option<int>)

  function StandingOf(node: Node): (r: Standing) {
    Standing(node.approved, node.approvedAt, node.authSecret, node.authExpiresAt)
  }

  /** An approval request for the node, by the administrator or with some secret. */
  predicate Asks(a: Action, k: string) {
    (a.ApproveByAdmin? || a.ApproveBySecret?) && a.nodeId == k
  }

  // ---------------------------------------------------------------- one step

  /** Only an approval request that the node admits changes its standing, and only once. */
  ghost predicate StandingStep(a: Action, ok: bool, k: string, node: Node, node': Node) {
    if ok && Asks(a, k) && !node.approved then
      && StandingOf(node') == Standing(true, Some(a.now), None, None)
      && (a.ApproveBySecret? ==> Admits(node, a.secret, a.now))
    else
      StandingOf(node') == StandingOf(node)
  }

  lemma ChangedStanding(nodes: Nodes, a: Action, node: Node, node': Node)
    requires ChangesNode(a) && Changed(nodes, a, node, node')
    ensures StandingStep(a, true, TargetNode(a), node, node')
  {
    if a.RotateKeys? {
      RotatedStanding(node, a.newMachineKey, a.newWgKey, a.now);
    }
  }

  lemma RotatedStanding(node: Node, newMachineKey: Option<string>, newWgKey: Option<string>, now: int)
    ensures StandingOf(Rotated(node, newMachineKey, newWgKey, now)) == StandingOf(node)
  {
  }

  lemma StepStanding(b: Backend, nodes: Nodes, a: Action, ok: bool, nodes': Nodes, k: string)
    requires NodeStep(b, nodes, a, ok, nodes') && k in nodes && k in nodes'
    ensures StandingStep(a, ok, k, nodes[k], nodes'[k])
  {
    if ok {
      if ChangesNode(a) && TargetNode(a) == k {
        ChangedStanding(nodes, a, nodes[k], nodes'[k]);
      } else {
        NotAsked(nodes, a, k);
        Unconcerned(nodes, a, nodes', k);
      }
    } else {
      FailureStanding(b, nodes, a, nodes', k);
    }
  }

  lemma NotAsked(nodes: Nodes, a: Action, k: string)
    requires !(ChangesNode(a) && TargetNode(a) == k)
    ensures !Asks(a, k)
  {
  }

  lemma FailureStanding(b: Backend, nodes: Nodes, a: Action, nodes': Nodes, k: string)
    requires Failure(b, nodes, a, nodes') && k in nodes && k in nodes'
    ensures StandingOf(nodes'[k]) == StandingOf(nodes[k])
  {
  }

  // ---------------------------------------------------------------- lives

  /** An approval that counts: the administrator's, or with the secret drawn at registration, in time. */
  predicate Approves(birth: Action, a: Action)
    requires birth.Register? || birth.RegisterUrl?
  {
    || (a.ApproveByAdmin? && a.nodeId == birth.nodeId)
    || (&& a.ApproveBySecret? && a.nodeId == birth.nodeId
        && birth.RegisterUrl? && a.secret == birth.secret && a.now < birth.now + UrlTtl(birth))
  }

  ghost predicate ApprovedBetween(actions: seq<Action>, ok: seq<bool>, j: nat, n: nat)
    requires j < n <= |actions| == |ok| && (actions[j].Register? || actions[j].RegisterUrl?)
  {
    exists i :: j < i < n && ok[i] && Approves(actions[j], actions[i])
  }

  /** Before approval a node has exactly the secret it was given at registration; after it, none. */
  predicate StandsAs(birth: Action, node: Node)
    requires birth.Register? || birth.RegisterUrl?
  {
    if node.approved then
      node.approvedAt.Some? && node.authSecret == None && node.authExpiresAt == None
    else
      && node.approvedAt == None
      && node.authSecret == (if birth.RegisterUrl? then Some(birth.secret) else None)
      && node.authExpiresAt == (if birth.RegisterUrl? then Some(birth.now + UrlTtl(birth)) else None)
  }

  lemma BirthStanding(b: Backend, nodes: seq<Nodes>, actions: seq<Action>, ok: seq<bool>, j: nat, k: string)
    requires NodeTrace(b, nodes, actions, ok) && Birth(actions, ok, j, k)
    ensures k in nodes[j + 1] && StandsAs(actions[j], nodes[j + 1][k])
    ensures actions[j].RegisterUrl? ==> !nodes[j + 1][k].approved
  {
    assert StepAt(b, nodes, actions, ok, j);
    assert BornWith(actions[j], nodes[j + 1][k]);
  }

  /** One step of a life. */
  lemma LifeStep(birth: Action, a: Action, ok: bool, k: string, node: Node, node': Node)
    requires (birth.Register? || birth.RegisterUrl?) && birth.nodeId == k
    requires StandsAs(birth, node) && StandingStep(a, ok, k, node, node')
    ensures StandsAs(birth, node')
    ensures node'.approved <==> node.approved || (ok && Approves(birth, a))
    ensures node.approved ==> node'.approvedAt == node.approvedAt
  {
  }

  lemma LifeGoesOn(b: Backend, nodes: seq<Nodes>, actions: seq<Action>, ok: seq<bool>, j: nat, n: nat, k: string)
    requires NodeTrace(b, nodes, actions, ok) && Birth(actions, ok, j, k) && j < n < |actions|
    requires k in nodes[n] && k in nodes[n + 1] && StandsAs(actions[j], nodes[n][k])
    ensures StandsAs(actions[j], nodes[n + 1][k])
    ensures nodes[n + 1][k].approved <==> nodes[n][k].approved || (ok[n] && Approves(actions[j], actions[n]))
  {
    assert StepAt(b, nodes, actions, ok, n);
    StepStanding(b, nodes[n], actions[n], ok[n], nodes[n + 1], k);
    LifeStep(actions[j], actions[n], ok[n], k, nodes[n][k], nodes[n + 1][k]);
  }

  lemma {:induction false} Life(b: Backend, nodes: seq<Nodes>, actions: seq<Action>, ok: seq<bool>, j: nat, n: nat,
                                k: string)
    requires NodeTrace(b, nodes, actions, ok) && Birth(actions, ok, j, k) && j < n <= |actions| && k in nodes[n]
    ensures k in nodes[j + 1]
    ensures StandsAs(actions[j], nodes[n][k])
    ensures nodes[n][k].approved <==> nodes[j + 1][k].approved || ApprovedBetween(actions, ok, j, n)
  {
    BirthStanding(b, nodes, actions, ok, j, k);
    if n > j + 1 {
      AliveSince(b, nodes, actions, ok, j, n - 1, n, k);
      Life(b, nodes, actions, ok, j, n - 1, k);
      LifeGoesOn(b, nodes, actions, ok, j, n - 1, k);
      ApprovedGrows(actions, ok, j, n - 1);
    }
  }

  lemma ApprovedGrows(actions: seq<Action>, ok: seq<bool>, j: nat, n: nat)
    requires j < n < |actions| == |ok| && (actions[j].Register? || actions[j].RegisterUrl?)
    ensures ApprovedBetween(actions, ok, j, n + 1) <==>
              ApprovedBetween(actions, ok, j, n) || (ok[n] && Approves(actions[j], actions[n]))
  {
    if ApprovedBetween(actions, ok, j, n) {
      var i :| j < i < n && ok[i] && Approves(actions[j], actions[i]);
      assert i < n + 1;
    }
  }

  // ---------------------------------------------------------------- the run theorem

  lemma TokenApproval(s: State, a: Action)
    requires a.Register? && Handle(s, a).result.Ok?
    ensures a.token in s.tokens && s.tokens[a.token].networkId in s.networks && a.nodeId in Handle(s, a).state.nodes
    ensures Handle(s, a).state.nodes[a.nodeId].approved == !s.networks[s.tokens[a.token].networkId].requiresApproval
  {
  }

  lemma BornApproved(b: Backend, s: State, a: Action)
    requires a.Register? && Handle(s, a).result.Ok?
    ensures a.token in s.tokens && s.tokens[a.token].networkId in s.networks && a.nodeId in Write(b, s, a).nodes
    ensures Write(b, s, a).nodes[a.nodeId].approved == !s.networks[s.tokens[a.token].networkId].requiresApproval
  {
    TokenApproval(s, a);
  }

  /** Approved by the network's own rule: registered with a token where no approval is required. */
  ghost predicate AdmittedAtOnce(s: State, a: Action) {
    && a.Register? && a.token in s.tokens && s.tokens[a.token].networkId in s.networks
    && !s.networks[s.tokens[a.token].networkId].requiresApproval
  }

  lemma BirthApproval(b: Backend, states: seq<State>, actions: seq<Action>, j: nat)
    requires Run(b, states, actions) && j < |actions| && actions[j].Register? && Succeeds(states, actions, j)
    ensures actions[j].nodeId in states[j + 1].nodes
    ensures states[j + 1].nodes[actions[j].nodeId].approved <==> AdmittedAtOnce(states[j], actions[j])
  {
    BornApproved(b, states[j], actions[j]);
    assert Follows(b, states, actions, j);
  }

  /**
   In every state of every run under either store, a node is approved exactly if its network
   admitted it at once, or the administrator approved it since, or its own secret was
   presented in time; until then it has exactly the secret of its registration, and none
   if it used a token; and afterwards it has none.
   */
  lemma ApprovalLifeCycle(b: Backend, states: seq<State>, actions: seq<Action>, n: nat, k: string)
    returns (j: nat)
    requires Run(b, states, actions) && n <= |actions| && k in states[n].nodes
    ensures j < n && Birth(actions, Outcomes(states, actions), j, k)
    ensures StandsAs(actions[j], states[n].nodes[k])
    ensures states[n].nodes[k].approved <==>
              AdmittedAtOnce(states[j], actions[j]) || ApprovedBetween(actions, Outcomes(states, actions), j, n)
  {
    RunIsNodeTrace(b, states, actions);
    var nodes, ok := NodesOf(states), Outcomes(states, actions);
    j := BornOnce(b, nodes, actions, ok, n, k);
    Life(b, nodes, actions, ok, j, n, k);
    BirthStanding(b, nodes, actions, ok, j, k);
    if actions[j].Register? {
      BirthApproval(b, states, actions, j);
    }
  }

  /** Approval is never taken back. */
  lemma {:induction false} ApprovalStays(b: Backend, nodes: seq<Nodes>, actions: seq<Action>, ok: seq<bool>, m: nat,
                                         n: nat, k: string)
    requires NodeTrace(b, nodes, actions, ok) && m <= n <= |actions| && k in nodes[m] && k in nodes[n]
    requires nodes[m][k].approved
    ensures StandingOf(nodes[n][k]) == StandingOf(nodes[m][k])
  {
    if m < n {
      var j := BornOnce(b, nodes, actions, ok, m, k);
      AliveSince(b, nodes, actions, ok, j, n - 1, n, k);
      ApprovalStays(b, nodes, actions, ok, m, n - 1, k);
      assert StepAt(b, nodes, actions, ok, n - 1);
      StepStanding(b, nodes[n - 1], actions[n - 1], ok[n - 1], nodes[n], k);
    }
  }
}
