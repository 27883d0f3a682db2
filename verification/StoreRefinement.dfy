/**
 The two stores.  A failed write is undone by the database and not by the file store, so
 they part exactly when an action fails after it changed something; which actions those
 are is decided by the state before them.
 */
module StoreRefinement {
  import opened Base
  import opened Model
  import opened Overlay
  import opened Handlers
  import opened ControlState
  import opened Addresses
  import opened Runs
  import opened NodeRuns

  // ---------------------------------------------------------------- failures that leave a trace

  /** There is an IPv4 address left but no IPv6 address. */
  predicate HalfExhausted(n: Network) {
    && MaxIpv4Offset(n.overlay4).Some?
    && n.nextIpv4 <= MaxIpv4Offset(n.overlay4).value
    && n.nextIpv6 > MaxIpv6Offset(n.overlay6)
  }

  /** The action will fail after it changed something. */
  ghost predicate Dirty(s: State, a: Action) {
    match a
    case CreateNetwork(_, _, _, _, _, _, bootstrap, _, _) =>
      CreateRefusal(s, a) == None && bootstrap.Some? && (bootstrap.value.ttl == 0 || bootstrap.value.uses == 0)
    case Register(token, _, _, _, _, _, _) =>
      RegisterRefusal(s, a) == None && HalfExhausted(s.networks[s.tokens[token].networkId])
    case RegisterUrl(networkId, _, _, _, _, _, _, _, _) =>
      RegisterUrlRefusal(s, a) == None && HalfExhausted(s.networks[networkId])
    case RotateKeys(_, _, _, _, _, _) =>
      PartialRotation(s.nodes, a)
    case _ => false
  }

  ghost predicate LeavesTrace(s: State, o: Outcome) {
    o.result.Err? && o.state != s
  }

  lemma CreateTrace(s: State, a: Action)
    requires a.CreateNetwork?
    ensures LeavesTrace(s, DoCreateNetwork(s, a)) <==> Dirty(s, a)
  {
  }

  lemma EnrollTrace(s: State, networkId: string, draft: Node)
    requires networkId in s.networks
    ensures LeavesTrace(s, Enroll(s, networkId, draft)) <==> HalfExhausted(s.networks[networkId])
  {
    var n := s.networks[networkId];
    assert s.networks == s.networks[networkId := n];
    if HalfExhausted(n) {
      assert Enroll(s, networkId, draft).state.networks[networkId].nextIpv4 == n.nextIpv4 + 1;
    }
  }

  lemma RegisterTrace(s: State, a: Action)
    requires a.Register?
    ensures LeavesTrace(s, DoRegister(s, a)) <==> Dirty(s, a)
  {
    if RegisterRefusal(s, a) == None {
      EnrollTrace(s, s.tokens[a.token].networkId, RegisterDraft(s, a));
    }
  }

  lemma RegisterUrlTrace(s: State, a: Action)
    requires a.RegisterUrl?
    ensures LeavesTrace(s, DoRegisterUrl(s, a)) <==> Dirty(s, a)
  {
    if RegisterUrlRefusal(s, a) == None {
      EnrollTrace(s, a.networkId, RegisterUrlDraft(a));
    }
  }

  lemma RotateTrace(s: State, a: Action)
    requires a.RotateKeys?
    ensures LeavesTrace(s, DoRotateKeys(s, a)) <==> Dirty(s, a)
  {
    if a.nodeId in s.nodes {
      assert s.nodes == s.nodes[a.nodeId := s.nodes[a.nodeId]];
    }
    if PartialRotation(s.nodes, a) {
      assert DoRotateKeys(s, a).state.nodes[a.nodeId].machineKey == a.newMachineKey.value;
    }
  }

  lemma UpdateTrace(s: State, a: Action)
    requires a.UpdateNode? && NodesHoused(s.networks, s.nodes)
    ensures !LeavesTrace(s, DoUpdateNode(s, a))
  {
    UpdateOutcome(s, a);
    if UpdateRefusal(s, a) == None {
      assert Housed(s.networks, s.nodes[a.nodeId]);
    }
  }

  lemma OtherTrace(s: State, a: Action)
    requires !a.CreateNetwork? && !a.Register? && !a.RegisterUrl? && !a.RotateKeys? && !a.UpdateNode?
    ensures !LeavesTrace(s, Handle(s, a))
  {
  }

  /** In a safe state an action fails with a change if and only if it is one of those four kinds. */
  lemma FailsWithChangeIff(s: State, a: Action)
    requires Safe(s)
    ensures LeavesTrace(s, Handle(s, a)) <==> Dirty(s, a)
  {
    match a
    case CreateNetwork(_, _, _, _, _, _, _, _, _) => CreateTrace(s, a);
    case Register(_, _, _, _, _, _, _) => RegisterTrace(s, a);
    case RegisterUrl(_, _, _, _, _, _, _, _, _) => RegisterUrlTrace(s, a);
    case RotateKeys(_, _, _, _, _, _) => RotateTrace(s, a);
    case UpdateNode(_, _, _) => UpdateTrace(s, a);
    case _ => OtherTrace(s, a);
  }

  /** The lookups of a node's or token's network never fail. */
  lemma LateErrorsUnreachable(s: State, a: Action)
    requires Safe(s)
    ensures a.UpdateNode? ==> DoUpdateNode(s, a).result != Err(NotFound(NoNetwork))
    ensures a.Register? ==> DoRegister(s, a).result != Err(NotFound(NoNetwork))
  {
    if a.UpdateNode? {
      UpdateFindsNetwork(s, a);
    } else if a.Register? {
      RegisterFindsNetwork(s, a);
    }
  }

  lemma EnrollFailure(s: State, networkId: string, draft: Node)
    requires networkId in s.networks
    ensures Enroll(s, networkId, draft).result.Err? ==> Enroll(s, networkId, draft).result.error.Conflict?
  {
  }

  lemma RegisterFindsNetwork(s: State, a: Action)
    requires a.Register? && TokensOk(s.networks, s.tokens)
    ensures DoRegister(s, a).result != Err(NotFound(NoNetwork))
  {
    if RegisterRefusal(s, a) == None {
      EnrollFailure(s, s.tokens[a.token].networkId, RegisterDraft(s, a));
    }
  }

  lemma UpdateFindsNetwork(s: State, a: Action)
    requires a.UpdateNode? && NodesHoused(s.networks, s.nodes)
    ensures DoUpdateNode(s, a).result != Err(NotFound(NoNetwork))
  {
    UpdateOutcome(s, a);
    if UpdateRefusal(s, a) == None {
      assert Housed(s.networks, s.nodes[a.nodeId]);
    }
  }

  // ---------------------------------------------------------------- runs of the two stores

  ghost predicate Agree(files: seq<State>, dbs: seq<State>, n: nat)
    requires n < |files| && n < |dbs|
  {
    forall i | 0 <= i <= n :: files[i] == dbs[i]
  }

  ghost predicate Clean(states: seq<State>, actions: seq<Action>, n: nat)
    requires n <= |actions| < |states|
  {
    forall i | 0 <= i < n :: !Dirty(states[i], actions[i])
  }

  lemma WritesAgree(s: State, a: Action)
    requires Safe(s)
    ensures Write(File, s, a) == Write(Db, s, a) <==> !Dirty(s, a)
  {
    FailsWithChangeIff(s, a);
  }

  lemma StoresAgreeNext(files: seq<State>, dbs: seq<State>, actions: seq<Action>, n: nat)
    requires Run(File, files, actions) && Run(Db, dbs, actions) && n < |actions| && files[n] == dbs[n]
    ensures files[n + 1] == dbs[n + 1] <==> !Dirty(dbs[n], actions[n])
  {
    RunSafe(Db, dbs, actions, n);
    WritesAgree(dbs[n], actions[n]);
    assert Follows(File, files, actions, n) && Follows(Db, dbs, actions, n);
  }

  /**
   The same actions on both stores give the same states, step by step, if and only if none
   of them fails with a change.
   */
  lemma {:induction false} StoresAgreeIff(files: seq<State>, dbs: seq<State>, actions: seq<Action>, n: nat)
    requires Run(File, files, actions) && Run(Db, dbs, actions) && n <= |actions|
    ensures Agree(files, dbs, n) <==> Clean(dbs, actions, n)
  {
    if n > 0 {
      StoresAgreeIff(files, dbs, actions, n - 1);
      if Agree(files, dbs, n - 1) {
        StoresAgreeNext(files, dbs, actions, n - 1);
      }
    }
  }

  // ---------------------------------------------------------------- the database as a replay

  ghost function Replay(b: Backend, s: State, actions: seq<Action>): (r: State)
    decreases |actions|
  {
    if actions == [] then s else Replay(b, Write(b, s, actions[0]), actions[1..])
  }

  /** The actions that succeed when they are tried one after the other on the database. */
  ghost function Committed(s: State, actions: seq<Action>): (r: seq<Action>)
    decreases |actions|
  {
    if actions == [] then [] else
    var rest := Committed(Write(Db, s, actions[0]), actions[1..]);
    if Handle(s, actions[0]).result.Ok? then [actions[0]] + rest else rest
  }

  ghost predicate AllSucceed(b: Backend, s: State, actions: seq<Action>)
    decreases |actions|
  {
    actions == [] || (Handle(s, actions[0]).result.Ok? && AllSucceed(b, Write(b, s, actions[0]), actions[1..]))
  }

  lemma SuccessIsTheSame(s: State, a: Action)
    requires Handle(s, a).result.Ok?
    ensures Write(File, s, a) == Write(Db, s, a)
  {
  }

  lemma FailureIsUndone(s: State, a: Action)
    requires Handle(s, a).result.Err?
    ensures Write(Db, s, a) == s
  {
  }

  /** The database holds what either store would after the successful actions alone. */
  lemma {:induction false} DatabaseIsCommitted(s: State, actions: seq<Action>)
    ensures Replay(Db, s, actions) == Replay(File, s, Committed(s, actions))
    ensures AllSucceed(File, s, Committed(s, actions))
    decreases |actions|
  {
    if actions != [] {
      var a, rest := actions[0], actions[1..];
      DatabaseIsCommitted(Write(Db, s, a), rest);
      if Handle(s, a).result.Ok? {
        SuccessIsTheSame(s, a);
        var c := Committed(s, actions);
        assert c[0] == a && c[1..] == Committed(Write(Db, s, a), rest);
      } else {
        FailureIsUndone(s, a);
      }
    }
  }
}
