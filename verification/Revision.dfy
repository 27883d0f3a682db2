/**
 Revisions over whole runs: what they count, and what equal revisions say about the state.
 */
module Revision {
  import opened Base
  import opened Model
  import opened Handlers
  import opened ControlState
  import opened Addresses
  import opened Runs
  import opened Scripts
  import opened StoreRefinement

  // ---------------------------------------------------------------- counting

  lemma CreateNetworkRevision(s: State, a: Action)
    requires a.CreateNetwork?
    ensures DoCreateNetwork(s, a).state.revision == s.revision
  {
  }

  lemma EnrollRevision(s: State, networkId: string, draft: Node)
    requires networkId in s.networks
    ensures Enroll(s, networkId, draft).state.revision == s.revision
  {
  }

  lemma RegisterRevision(s: State, a: Action)
    requires a.Register?
    ensures DoRegister(s, a).state.revision == s.revision
  {
    if RegisterRefusal(s, a) == None {
      EnrollRevision(s, s.tokens[a.token].networkId, RegisterDraft(s, a));
    }
  }

  lemma RegisterUrlRevision(s: State, a: Action)
    requires a.RegisterUrl?
    ensures DoRegisterUrl(s, a).state.revision == s.revision
  {
    if RegisterUrlRefusal(s, a) == None {
      EnrollRevision(s, a.networkId, RegisterUrlDraft(a));
    }
  }

  lemma UpdateRevision(s: State, a: Action)
    requires a.UpdateNode?
    ensures DoUpdateNode(s, a).state.revision == s.revision
  {
    if UpdateRefusal(s, a) == None {
      UpdatedRevision(s, a.nodeId, UpdatedNode(s.nodes[a.nodeId], a.newName, a.newTags));
    }
  }

  lemma UpdatedRevision(s: State, id: string, node: Node)
    requires id in s.nodes
    ensures PutUpdated(s, id, node).state.revision == s.revision
  {
  }

  lemma NodeRevision(s: State, a: Action)
    requires a.ApproveBySecret? || a.ApproveByAdmin? || a.RotateKeys? || a.RevokeNode? || a.Heartbeat? || a.DeleteNode?
    ensures Handle(s, a).state.revision == s.revision
  {
  }

  lemma TokenRevision(s: State, a: Action)
    requires a.CreateToken? || a.RevokeToken? || a.UpdateAcl? || a.UpdateKeyPolicy? || a.DeleteNetwork?
    ensures Handle(s, a).state.revision == s.revision
  {
  }

  /** No closure touches the revision. */
  lemma HandleRevision(s: State, a: Action)
    ensures Handle(s, a).state.revision == s.revision
  {
    if a.CreateNetwork? {
      CreateNetworkRevision(s, a);
    } else if a.Register? {
      RegisterRevision(s, a);
    } else if a.RegisterUrl? {
      RegisterUrlRevision(s, a);
    } else if a.UpdateNode? {
      UpdateRevision(s, a);
    } else if a.CreateToken? || a.RevokeToken? || a.UpdateAcl? || a.UpdateKeyPolicy? || a.DeleteNetwork? {
      TokenRevision(s, a);
    } else {
      NodeRevision(s, a);
    }
  }

  function Saturated(n: nat): (r: nat) {
    if n > MAX_REVISION then MAX_REVISION else n
  }

  /** Successes among the steps from `m` up to `n`. */
  function Commits(ok: seq<bool>, m: nat, n: nat): (count: nat)
    requires m <= n <= |ok|
  {
    if m == n then 0 else Commits(ok, m, n - 1) + (if ok[n - 1] then 1 else 0)
  }

  lemma WriteRevision(b: Backend, s: State, a: Action)
    requires s.revision <= MAX_REVISION
    ensures Write(b, s, a).revision == if Handle(s, a).result.Ok? then Saturated(s.revision + 1) else s.revision
  {
    HandleRevision(s, a);
  }

  lemma StepRevision(b: Backend, states: seq<State>, actions: seq<Action>, n: nat)
    requires Run(b, states, actions) && n < |actions| && states[n].revision <= MAX_REVISION
    ensures states[n + 1].revision
         == if Outcomes(states, actions)[n] then Saturated(states[n].revision + 1) else states[n].revision
  {
    WriteRevision(b, states[n], actions[n]);
    assert Follows(b, states, actions, n);
  }

  /** Under either store the revision counts the successful writes, up to the largest u64. */
  lemma {:induction false} RevisionCountsCommits(b: Backend, states: seq<State>, actions: seq<Action>, n: nat)
    requires Run(b, states, actions) && n <= |actions|
    ensures states[n].revision == Saturated(Commits(Outcomes(states, actions), 0, n))
  {
    if n > 0 {
      RevisionCountsCommits(b, states, actions, n - 1);
      StepRevision(b, states, actions, n - 1);
    }
  }

  lemma {:induction false} CommitsAdd(ok: seq<bool>, m: nat, n: nat)
    requires m <= n <= |ok|
    ensures Commits(ok, 0, n) == Commits(ok, 0, m) + Commits(ok, m, n)
  {
    if m < n {
      CommitsAdd(ok, m, n - 1);
    }
  }

  lemma {:induction false} NoneCommitted(ok: seq<bool>, m: nat, n: nat)
    requires m <= n <= |ok| && Commits(ok, m, n) == 0
    ensures forall i | m <= i < n :: !ok[i]
  {
    if m < n {
      NoneCommitted(ok, m, n - 1);
    }
  }

  /** Revisions never go back, and stand still below the largest one exactly if nothing was committed. */
  lemma RevisionOrder(b: Backend, states: seq<State>, actions: seq<Action>, m: nat, n: nat)
    requires Run(b, states, actions) && m <= n <= |actions|
    ensures states[m].revision <= states[n].revision <= MAX_REVISION
    ensures states[m].revision < MAX_REVISION ==>
              (states[m].revision == states[n].revision <==> Commits(Outcomes(states, actions), m, n) == 0)
  {
    RevisionCountsCommits(b, states, actions, m);
    RevisionCountsCommits(b, states, actions, n);
    CommitsAdd(Outcomes(states, actions), m, n);
  }

  // ---------------------------------------------------------------- the database

  lemma FailureKeepsDb(states: seq<State>, actions: seq<Action>, n: nat)
    requires Run(Db, states, actions) && n < |actions| && !Outcomes(states, actions)[n]
    ensures states[n + 1] == states[n]
  {
    FailureIsUndone(states[n], actions[n]);
    assert Follows(Db, states, actions, n);
  }

  lemma {:induction false} AllEqual(states: seq<State>, m: nat, n: nat)
    requires m <= n < |states| && forall i | m <= i < n :: states[i + 1] == states[i]
    ensures states[m] == states[n]
  {
    if m < n {
      AllEqual(states, m, n - 1);
      assert states[n - 1 + 1] == states[n - 1];
    }
  }

  /** With the database, a revision below the largest one identifies the state. */
  lemma RevisionIdentifiesState(states: seq<State>, actions: seq<Action>, m: nat, n: nat)
    requires Run(Db, states, actions) && m <= n <= |actions|
    requires states[m].revision == states[n].revision < MAX_REVISION
    ensures states[m] == states[n]
  {
    RevisionOrder(Db, states, actions, m, n);
    NoneCommitted(Outcomes(states, actions), m, n);
    forall i | m <= i < n
      ensures states[i + 1] == states[i]
    {
      FailureKeepsDb(states, actions, i);
    }
    AllEqual(states, m, n);
  }

  // ---------------------------------------------------------------- the file store

  ghost predicate NetworksGrew(a: Networks, b: Networks) {
    forall k <- a :: k in b && a[k].nextIpv4 <= b[k].nextIpv4
  }

  ghost predicate HistoriesGrew(a: Nodes, b: Nodes) {
    forall k <- a :: k in b && |a[k].keyHistory| <= |b[k].keyHistory|
  }

  /** What failures can do: add networks, move cursors, lengthen histories. */
  ghost predicate Grew(s: State, s': State) {
    NetworksGrew(s.networks, s'.networks) && HistoriesGrew(s.nodes, s'.nodes)
  }

  ghost predicate Larger(s: State, s': State) {
    || (exists k :: k in s'.networks && (k !in s.networks || s.networks[k].nextIpv4 < s'.networks[k].nextIpv4))
    || (exists k :: k in s'.nodes && (k !in s.nodes || |s.nodes[k].keyHistory| < |s'.nodes[k].keyHistory|))
  }

  lemma LargerStays(s: State, s1: State, s2: State)
    requires Larger(s, s1) && Grew(s1, s2)
    ensures Larger(s, s2)
  {
    if k :| k in s1.networks && (k !in s.networks || s.networks[k].nextIpv4 < s1.networks[k].nextIpv4) {
      assert k in s2.networks;
    } else {
      var k :| k in s1.nodes && (k !in s.nodes || |s.nodes[k].keyHistory| < |s1.nodes[k].keyHistory|);
      assert k in s2.nodes;
    }
  }

  lemma GrewTransitive(s: State, s1: State, s2: State)
    requires Grew(s, s1) && Grew(s1, s2)
    ensures Grew(s, s2)
  {
  }

  lemma EnrollGrows(s: State, networkId: string, draft: Node)
    requires networkId in s.networks && HalfExhausted(s.networks[networkId])
    ensures var s' := Enroll(s, networkId, draft).state;
            s'.nodes == s.nodes && NetworksGrew(s.networks, s'.networks) && networkId in s'.networks
            && s.networks[networkId].nextIpv4 < s'.networks[networkId].nextIpv4
  {
  }

  lemma CreateGrows(s: State, a: Action)
    requires a.CreateNetwork? && Dirty(s, a)
    ensures Grew(s, DoCreateNetwork(s, a).state) && Larger(s, DoCreateNetwork(s, a).state)
  {
    assert a.networkId in DoCreateNetwork(s, a).state.networks;
  }

  lemma RegisterGrows(s: State, a: Action)
    requires a.Register? && Dirty(s, a)
    ensures Grew(s, DoRegister(s, a).state) && Larger(s, DoRegister(s, a).state)
  {
    EnrollGrows(s, s.tokens[a.token].networkId, RegisterDraft(s, a));
  }

  lemma RegisterUrlGrows(s: State, a: Action)
    requires a.RegisterUrl? && Dirty(s, a)
    ensures Grew(s, DoRegisterUrl(s, a).state) && Larger(s, DoRegisterUrl(s, a).state)
  {
    EnrollGrows(s, a.networkId, RegisterUrlDraft(a));
  }

  lemma RotateGrows(s: State, a: Action)
    requires a.RotateKeys? && Dirty(s, a)
    ensures Grew(s, DoRotateKeys(s, a).state) && Larger(s, DoRotateKeys(s, a).state)
  {
    assert a.nodeId in DoRotateKeys(s, a).state.nodes;
  }

  lemma DirtyGrows(s: State, a: Action)
    requires Dirty(s, a)
    ensures Grew(s, Handle(s, a).state) && Larger(s, Handle(s, a).state)
  {
    match a
    case CreateNetwork(_, _, _, _, _, _, _, _, _) => CreateGrows(s, a);
    case Register(_, _, _, _, _, _, _) => RegisterGrows(s, a);
    case RegisterUrl(_, _, _, _, _, _, _, _, _) => RegisterUrlGrows(s, a);
    case RotateKeys(_, _, _, _, _, _) => RotateGrows(s, a);
  }

  /** One failed write: no change, or something grew. */
  ghost predicate GrowStep(s: State, s': State, dirty: bool) {
    Grew(s, s') && (if dirty then Larger(s, s') else s == s')
  }

  lemma FailureGrows(states: seq<State>, actions: seq<Action>, n: nat)
    requires Run(File, states, actions) && n < |actions| && !Outcomes(states, actions)[n]
    ensures GrowStep(states[n], states[n + 1], Dirty(states[n], actions[n]))
  {
    RunSafe(File, states, actions, n);
    FailsWithChangeIff(states[n], actions[n]);
    assert Follows(File, states, actions, n);
    if Dirty(states[n], actions[n]) {
      DirtyGrows(states[n], actions[n]);
    }
  }

  ghost predicate AnyDirty(dirty: seq<bool>, m: nat, n: nat)
    requires m <= n <= |dirty|
  {
    exists i :: m <= i < n && dirty[i]
  }

  lemma Chain(s: State, s1: State, s2: State, dirty1: bool, dirty2: bool)
    requires GrowStep(s, s1, dirty1) && GrowStep(s1, s2, dirty2)
    ensures GrowStep(s, s2, dirty1 || dirty2)
  {
    GrewTransitive(s, s1, s2);
    if dirty1 {
      LargerStays(s, s1, s2);
    }
  }

  lemma {:induction false} FailuresGrow(states: seq<State>, dirty: seq<bool>, m: nat, n: nat)
    requires |states| == |dirty| + 1 && m <= n <= |dirty|
    requires forall i | m <= i < n :: GrowStep(states[i], states[i + 1], dirty[i])
    ensures GrowStep(states[m], states[n], AnyDirty(dirty, m, n))
  {
    if m < n {
      FailuresGrow(states, dirty, m, n - 1);
      assert GrowStep(states[n - 1], states[n - 1 + 1], dirty[n - 1]);
      Chain(states[m], states[n - 1], states[n], AnyDirty(dirty, m, n - 1), dirty[n - 1]);
      assert AnyDirty(dirty, m, n) <==> AnyDirty(dirty, m, n - 1) || dirty[n - 1];
    }
  }

  /** Which writes would fail with a change. */
  ghost function Dirtiness(states: seq<State>, actions: seq<Action>): (dirty: seq<bool>)
    requires |states| == |actions| + 1
  {
    seq(|actions|, i requires 0 <= i < |actions| => Dirty(states[i], actions[i]))
  }

  /**
   With the file store, two states of one revision below the largest are the same if and
   only if no write in between failed with a change.
   */
  lemma FileRevisionIdentifiesIff(states: seq<State>, actions: seq<Action>, m: nat, n: nat)
    requires Run(File, states, actions) && m <= n <= |actions|
    requires states[m].revision == states[n].revision < MAX_REVISION
    ensures states[m] == states[n] <==> !AnyDirty(Dirtiness(states, actions), m, n)
  {
    RevisionOrder(File, states, actions, m, n);
    NoneCommitted(Outcomes(states, actions), m, n);
    forall i | m <= i < n
      ensures GrowStep(states[i], states[i + 1], Dirtiness(states, actions)[i])
    {
      FailureGrows(states, actions, i);
    }
    FailuresGrow(states, Dirtiness(states, actions), m, n);
    NotLarger(states[m]);
  }

  lemma NotLarger(s: State)
    ensures !Larger(s, s)
  {
  }

  /** It does happen: a network with an unusable bootstrap token is kept under the old revision. */
  lemma FileRevisionCanLie() returns (states: seq<State>, actions: seq<Action>)
    ensures Run(File, states, actions) && |actions| == 1
    ensures states[0].revision == states[1].revision && states[0] != states[1]
  {
    var a := CreateNetwork("n", Some(SMALL4), Some(SMALL6), "d", false, None, Some(Bootstrap(0, 1, [])), "t", 0);
    actions := [a];
    states := [DEFAULT_STATE, Write(File, DEFAULT_STATE, a)];
    assert Follows(File, states, actions, 0);
    FoundingAllowed(DEFAULT_STATE, a);
    CreateGrows(DEFAULT_STATE, a);
    HandleRevision(DEFAULT_STATE, a);
  }
}
