/**
 Key histories over whole runs.  Of each key type at most the newest record is unrevoked
 and it holds the current key; records are never removed or un-revoked; and the age that
 key rotation looks at is that of the last registration or rotation, unless the node was
 revoked since.
 */
module KeyHistory {
  import opened Base
  import opened Model
  import opened Handlers
  import opened ControlState
  import opened Addresses
  import opened Runs
  import opened NodeRuns

  function CurrentKey(node: Node, t: KeyType): (key: string) {
    match t
    case Machine => node.machineKey
    case WireGuard => node.wgKey
  }

  predicate IsCurrent(r: KeyRecord, t: KeyType, key: string) {
    r.keyType == t && r.revokedAt == None && r.publicKey == key
  }

  /** The first unrevoked record of the current key. */
  function FindCurrent(history: seq<KeyRecord>, t: KeyType, key: string): (r: Option<int>) {
    if history == [] then None
    else if IsCurrent(history[0], t, key) then Some(history[0].createdAt)
    else FindCurrent(history[1..], t, key)
  }

  /** `current_key_created_at`. */
  function CurrentKeyCreatedAt(node: Node, t: KeyType): (r: Option<int>) {
    FindCurrent(node.keyHistory, t, CurrentKey(node, t))
  }

  // ---------------------------------------------------------------- histories

  ghost predicate NewestAt(h: seq<KeyRecord>, t: KeyType, i: nat) {
    i < |h| && h[i].keyType == t && forall j | i < j < |h| :: h[j].keyType != t
  }

  /** The newest record of the type holds the key, and all older ones are revoked. */
  ghost predicate AliveAt(h: seq<KeyRecord>, t: KeyType, key: string, i: nat) {
    NewestAt(h, t, i) && h[i].publicKey == key && forall j | 0 <= j < i && h[j].keyType == t :: h[j].revokedAt.Some?
  }

  ghost predicate OneAlive(h: seq<KeyRecord>, t: KeyType, key: string) {
    exists i: nat :: AliveAt(h, t, key, i)
  }

  ghost predicate KeysOk(node: Node) {
    OneAlive(node.keyHistory, Machine, node.machineKey) && OneAlive(node.keyHistory, WireGuard, node.wgKey)
  }

  /** Records stay in place with their type, key and creation date; a revoked one stays revoked, perhaps re-dated. */
  ghost predicate Extends(h: seq<KeyRecord>, h': seq<KeyRecord>) {
    && |h| <= |h'|
    && forall i | 0 <= i < |h| ::
         && h'[i].(revokedAt := None) == h[i].(revokedAt := None)
         && (h[i].revokedAt.Some? ==> h'[i].revokedAt.Some?)
  }

  lemma {:induction false} FindNone(h: seq<KeyRecord>, t: KeyType, key: string)
    requires forall r <- h :: !IsCurrent(r, t, key)
    ensures FindCurrent(h, t, key) == None
  {
    if h != [] {
      FindNone(h[1..], t, key);
    }
  }

  lemma {:induction false} FindAt(h: seq<KeyRecord>, t: KeyType, key: string, i: nat)
    requires i < |h| && IsCurrent(h[i], t, key) && forall j | 0 <= j < i :: !IsCurrent(h[j], t, key)
    ensures FindCurrent(h, t, key) == Some(h[i].createdAt)
  {
    if i > 0 {
      FindAt(h[1..], t, key, i - 1);
    }
  }

  /** With one record alive, the search finds the newest record or nothing. */
  lemma FindIsNewest(h: seq<KeyRecord>, t: KeyType, key: string, i: nat)
    requires AliveAt(h, t, key, i)
    ensures FindCurrent(h, t, key) == if h[i].revokedAt.Some? then None else Some(h[i].createdAt)
  {
    if h[i].revokedAt.Some? {
      FindNone(h, t, key);
    } else {
      FindAt(h, t, key, i);
    }
  }

  // ---------------------------------------------------------------- the operations on histories

  lemma NewKeysAlive(machineKey: string, wgKey: string, now: int)
    ensures var h := NewKeys(machineKey, wgKey, now);
            && OneAlive(h, Machine, machineKey) && OneAlive(h, WireGuard, wgKey)
            && FindCurrent(h, Machine, machineKey) == Some(now) && FindCurrent(h, WireGuard, wgKey) == Some(now)
  {
    var h := NewKeys(machineKey, wgKey, now);
    assert AliveAt(h, Machine, machineKey, 0) && AliveAt(h, WireGuard, wgKey, 1);
    FindIsNewest(h, Machine, machineKey, 0);
    FindIsNewest(h, WireGuard, wgKey, 1);
  }

  /** Revoking the current key leaves no record of its type alive. */
  lemma RevokeKills(h: seq<KeyRecord>, t: KeyType, key: string, now: int)
    requires OneAlive(h, t, key)
    ensures var h' := RevokeRecords(h, t, key, now);
            && Extends(h, h') && OneAlive(h', t, key) && FindCurrent(h', t, key) == None
            && forall r <- h' :: r.keyType == t ==> r.revokedAt.Some?
  {
    var h' := RevokeRecords(h, t, key, now);
    var i: nat :| AliveAt(h, t, key, i);
    assert AliveAt(h', t, key, i);
    FindIsNewest(h', t, key, i);
  }

  /** Revoking or adding a key of one type does not concern the other. */
  lemma {:induction false} RevokeOther(h: seq<KeyRecord>, t: KeyType, key: string, now: int, u: KeyType, other: string)
    requires t != u
    ensures FindCurrent(RevokeRecords(h, t, key, now), u, other) == FindCurrent(h, u, other)
  {
    if h != [] {
      RevokeOther(h[1..], t, key, now, u, other);
      assert RevokeRecords(h, t, key, now)[1..] == RevokeRecords(h[1..], t, key, now);
    }
  }

  lemma {:induction false} AppendOther(h: seq<KeyRecord>, r: KeyRecord, u: KeyType, other: string)
    requires r.keyType != u
    ensures FindCurrent(h + [r], u, other) == FindCurrent(h, u, other)
  {
    if h != [] {
      AppendOther(h[1..], r, u, other);
      assert (h + [r])[1..] == h[1..] + [r];
    } else {
      assert h + [r] == [r];
    }
  }

  lemma OtherStaysAlive(h: seq<KeyRecord>, t: KeyType, key: string, now: int, added: seq<KeyRecord>, u: KeyType,
                        other: string)
    requires t != u && OneAlive(h, u, other) && |added| <= 1 && forall r <- added :: r.keyType == t
    ensures OneAlive(RevokeRecords(h, t, key, now) + added, u, other)
    ensures FindCurrent(RevokeRecords(h, t, key, now) + added, u, other) == FindCurrent(h, u, other)
  {
    var h' := RevokeRecords(h, t, key, now) + added;
    var i: nat :| AliveAt(h, u, other, i);
    assert AliveAt(h', u, other, i);
    RevokeOther(h, t, key, now, u, other);
    if added != [] {
      AppendOther(RevokeRecords(h, t, key, now), added[0], u, other);
      assert added == [added[0]];
    } else {
      assert h' == RevokeRecords(h, t, key, now);
    }
  }

  /** Rotation makes the new key the one alive. */
  lemma RotateRenews(h: seq<KeyRecord>, t: KeyType, key: string, next: string, now: int)
    requires OneAlive(h, t, key)
    ensures var h' := RevokeRecords(h, t, key, now) + [KeyRecord(t, next, now, None)];
            && Extends(h, h') && OneAlive(h', t, next) && FindCurrent(h', t, next) == Some(now)
  {
    var dead := RevokeRecords(h, t, key, now);
    RevokeKills(h, t, key, now);
    var h' := dead + [KeyRecord(t, next, now, None)];
    forall j | 0 <= j < |h| && h'[j].keyType == t
      ensures h'[j].revokedAt.Some?
    {
      assert dead[j] in dead;
    }
    assert AliveAt(h', t, next, |h|);
    FindIsNewest(h', t, next, |h|);
  }

  // ---------------------------------------------------------------- nodes

  datatype KeyEvent = Renewed(at: int) | Dead

  function ClockAfter(clock: Option<int>, e: Option<KeyEvent>): (r: Option<int>) {
    match e
    case None => clock
    case Some(Renewed(at)) => Some(at)
    case Some(Dead) => None
  }

  /** What a change of a node means for its keys. */
  ghost predicate KeyStep(node: Node, node': Node, machine: Option<KeyEvent>, wg: Option<KeyEvent>) {
    && KeysOk(node')
    && Extends(node.keyHistory, node'.keyHistory)
    && CurrentKeyCreatedAt(node', Machine) == ClockAfter(CurrentKeyCreatedAt(node, Machine), machine)
    && CurrentKeyCreatedAt(node', WireGuard) == ClockAfter(CurrentKeyCreatedAt(node, WireGuard), wg)
  }

  lemma SameKeysStep(node: Node, node': Node)
    requires KeysOk(node) && node'.keyHistory == node.keyHistory && node'.machineKey == node.machineKey
    requires node'.wgKey == node.wgKey
    ensures KeyStep(node, node', None, None)
  {
  }

  lemma RotateMachineStep(node: Node, key: string, now: int)
    requires KeysOk(node)
    ensures KeyStep(node, RotateMachine(node, key, now), Some(Renewed(now)), None)
  {
    RotateRenews(node.keyHistory, Machine, node.machineKey, key, now);
    var added := [KeyRecord(Machine, key, now, None)];
    OtherStaysAlive(node.keyHistory, Machine, node.machineKey, now, added, WireGuard, node.wgKey);
  }

  lemma RotateWireGuardStep(node: Node, key: string, now: int)
    requires KeysOk(node)
    ensures KeyStep(node, RotateWireGuard(node, key, now), None, Some(Renewed(now)))
  {
    RotateRenews(node.keyHistory, WireGuard, node.wgKey, key, now);
    var added := [KeyRecord(WireGuard, key, now, None)];
    OtherStaysAlive(node.keyHistory, WireGuard, node.wgKey, now, added, Machine, node.machineKey);
  }

  lemma ExtendsTransitive(a: seq<KeyRecord>, b: seq<KeyRecord>, c: seq<KeyRecord>)
    requires Extends(a, b) && Extends(b, c)
    ensures Extends(a, c)
  {
    forall i | 0 <= i < |a|
      ensures c[i].(revokedAt := None) == a[i].(revokedAt := None)
      ensures a[i].revokedAt.Some? ==> c[i].revokedAt.Some?
    {
      assert b[i].(revokedAt := None) == a[i].(revokedAt := None);
      assert c[i].(revokedAt := None) == b[i].(revokedAt := None);
    }
  }

  lemma RevokeNodeStep(node: Node, now: int)
    requires KeysOk(node)
    ensures KeyStep(node, RevokedNode(node, now), Some(Dead), Some(Dead))
  {
    var h1 := RevokeRecords(node.keyHistory, Machine, node.machineKey, now);
    assert h1 + [] == h1;
    RevokeKills(node.keyHistory, Machine, node.machineKey, now);
    OtherStaysAlive(node.keyHistory, Machine, node.machineKey, now, [], WireGuard, node.wgKey);
    var h2 := RevokeRecords(h1, WireGuard, node.wgKey, now);
    assert h2 + [] == h2;
    RevokeKills(h1, WireGuard, node.wgKey, now);
    OtherStaysAlive(h1, WireGuard, node.wgKey, now, [], Machine, node.machineKey);
    ExtendsTransitive(node.keyHistory, h1, h2);
  }

  function Renewal(key: Option<string>, now: int): (e: Option<KeyEvent>) {
    if key.Some? then Some(Renewed(now)) else None
  }

  lemma RotatedStep(node: Node, newMachineKey: Option<string>, newWgKey: Option<string>, now: int)
    requires KeysOk(node)
    ensures KeyStep(node, Rotated(node, newMachineKey, newWgKey, now),
                    Renewal(newMachineKey, now), Renewal(newWgKey, now))
  {
    var n1 := if newMachineKey.Some? then RotateMachine(node, newMachineKey.value, now) else node;
    if newMachineKey.Some? {
      RotateMachineStep(node, newMachineKey.value, now);
    }
    if newWgKey.Some? {
      RotateWireGuardStep(n1, newWgKey.value, now);
      ExtendsTransitive(node.keyHistory, n1.keyHistory, Rotated(node, newMachineKey, newWgKey, now).keyHistory);
    }
  }

  // ---------------------------------------------------------------- events

  /** What an action means for a node's key of one type, read off the action and the state before it. */
  function KeyEventOf(b: Backend, nodes: Nodes, a: Action, ok: bool, k: string, t: KeyType): (e: Option<KeyEvent>) {
    match a
    case Register(_, _, _, _, id, _, now) => if id == k && ok then Some(Renewed(now)) else None
    case RegisterUrl(_, _, _, _, _, id, _, _, now) => if id == k && ok then Some(Renewed(now)) else None
    case RevokeNode(id, now) => if id == k && ok then Some(Dead) else None
    case RotateKeys(id, _, _, newMachineKey, newWgKey, now) =>
      if id != k then None
      else if ok then Renewal(if t == Machine then newMachineKey else newWgKey, now)
      else if t == Machine && b.File? && PartialRotation(nodes, a) then Some(Renewed(now))
      else None
    case _ => None
  }

  ghost predicate KeyStepOf(b: Backend, nodes: Nodes, a: Action, ok: bool, k: string, node': Node) {
    var machine, wg := KeyEventOf(b, nodes, a, ok, k, Machine), KeyEventOf(b, nodes, a, ok, k, WireGuard);
    if k in nodes then KeyStep(nodes[k], node', machine, wg)
    else
      && KeysOk(node')
      && machine.Some? && wg.Some?
      && CurrentKeyCreatedAt(node', Machine) == ClockAfter(None, machine)
      && CurrentKeyCreatedAt(node', WireGuard) == ClockAfter(None, wg)
  }

  ghost predicate AllKeysOk(nodes: Nodes) {
    forall k <- nodes :: KeysOk(nodes[k])
  }

  lemma PlainChange(nodes: Nodes, a: Action, node: Node, node': Node)
    requires ChangesNode(a) && !a.RotateKeys? && !a.RevokeNode? && Changed(nodes, a, node, node')
    ensures node'.keyHistory == node.keyHistory && node'.machineKey == node.machineKey && node'.wgKey == node.wgKey
  {
  }

  lemma RotationKeys(b: Backend, nodes: Nodes, a: Action, node': Node)
    requires a.RotateKeys? && a.nodeId in nodes && KeysOk(nodes[a.nodeId])
    requires Changed(nodes, a, nodes[a.nodeId], node')
    ensures KeyStepOf(b, nodes, a, true, a.nodeId, node')
  {
    var node := nodes[a.nodeId];
    RotatedStep(node, a.newMachineKey, a.newWgKey, a.now);
    SameKeysStep(Rotated(node, a.newMachineKey, a.newWgKey, a.now), node');
  }

  lemma RevocationKeys(b: Backend, nodes: Nodes, a: Action, node': Node)
    requires a.RevokeNode? && a.nodeId in nodes
    requires KeyStep(nodes[a.nodeId], node', Some(Dead), Some(Dead))
    ensures KeyStepOf(b, nodes, a, true, a.nodeId, node')
  {
  }

  lemma KeptKeys(b: Backend, nodes: Nodes, a: Action, ok: bool, k: string, node': Node)
    requires k in nodes && KeysOk(nodes[k])
    requires node'.keyHistory == nodes[k].keyHistory && node'.machineKey == nodes[k].machineKey
    requires node'.wgKey == nodes[k].wgKey
    requires KeyEventOf(b, nodes, a, ok, k, Machine) == None && KeyEventOf(b, nodes, a, ok, k, WireGuard) == None
    ensures KeyStepOf(b, nodes, a, ok, k, node')
  {
    SameKeysStep(nodes[k], node');
  }

  lemma ChangedKeys(b: Backend, nodes: Nodes, a: Action, node': Node)
    requires ChangesNode(a) && TargetNode(a) in nodes && KeysOk(nodes[TargetNode(a)])
    requires Changed(nodes, a, nodes[TargetNode(a)], node')
    ensures KeyStepOf(b, nodes, a, true, TargetNode(a), node')
  {
    if a.RotateKeys? {
      RotationKeys(b, nodes, a, node');
    } else if a.RevokeNode? {
      RevokeNodeStep(nodes[a.nodeId], a.now);
      RevocationKeys(b, nodes, a, node');
    } else {
      PlainChange(nodes, a, nodes[TargetNode(a)], node');
      KeptKeys(b, nodes, a, true, TargetNode(a), node');
    }
  }

  lemma NewbornKeys(b: Backend, nodes: Nodes, a: Action, node: Node)
    requires (a.Register? || a.RegisterUrl?) && a.nodeId !in nodes && Newborn(nodes, a, node)
    ensures KeyStepOf(b, nodes, a, true, a.nodeId, node)
  {
    NewKeysAlive(a.machineKey, a.wgKey, a.now);
  }

  lemma NoEvent(b: Backend, nodes: Nodes, a: Action, ok: bool, k: string)
    requires !Concerns(a, k)
    ensures KeyEventOf(b, nodes, a, ok, k, Machine) == None && KeyEventOf(b, nodes, a, ok, k, WireGuard) == None
  {
  }

  lemma SuccessKeys(b: Backend, nodes: Nodes, a: Action, nodes': Nodes, k: string)
    requires AllKeysOk(nodes) && Success(nodes, a, nodes') && k in nodes'
    ensures KeyStepOf(b, nodes, a, true, k, nodes'[k])
  {
    if (a.Register? || a.RegisterUrl?) && a.nodeId == k {
      NewbornKeys(b, nodes, a, nodes'[k]);
    } else if ChangesNode(a) && TargetNode(a) == k {
      ChangedKeys(b, nodes, a, nodes'[k]);
    } else {
      Unconcerned(nodes, a, nodes', k);
      NoEvent(b, nodes, a, true, k);
      KeptKeys(b, nodes, a, true, k, nodes'[k]);
    }
  }

  lemma PartialKeys(nodes: Nodes, a: Action)
    requires PartialRotation(nodes, a) && KeysOk(nodes[a.nodeId])
    ensures KeyStepOf(File, nodes, a, false, a.nodeId, RotateMachine(nodes[a.nodeId], a.newMachineKey.value, a.now))
  {
    RotateMachineStep(nodes[a.nodeId], a.newMachineKey.value, a.now);
  }

  lemma FailureKeys(b: Backend, nodes: Nodes, a: Action, nodes': Nodes, k: string)
    requires AllKeysOk(nodes) && Failure(b, nodes, a, nodes') && k in nodes'
    ensures KeyStepOf(b, nodes, a, false, k, nodes'[k])
  {
    if b.File? && PartialRotation(nodes, a) && k == a.nodeId {
      PartialKeys(nodes, a);
    } else {
      KeptKeys(b, nodes, a, false, k, nodes'[k]);
    }
  }

  lemma StepKeys(b: Backend, nodes: Nodes, a: Action, ok: bool, nodes': Nodes)
    requires AllKeysOk(nodes) && NodeStep(b, nodes, a, ok, nodes')
    ensures AllKeysOk(nodes')
    ensures forall k <- nodes' :: KeyStepOf(b, nodes, a, ok, k, nodes'[k])
  {
    forall k <- nodes'
      ensures KeyStepOf(b, nodes, a, ok, k, nodes'[k])
    {
      if ok {
        SuccessKeys(b, nodes, a, nodes', k);
      } else {
        FailureKeys(b, nodes, a, nodes', k);
      }
    }
  }

  // ---------------------------------------------------------------- whole runs

  lemma {:induction false} TraceKeysOk(b: Backend, nodes: seq<Nodes>, actions: seq<Action>, ok: seq<bool>, n: nat)
    requires NodeTrace(b, nodes, actions, ok) && n <= |actions|
    ensures AllKeysOk(nodes[n])
  {
    if n > 0 {
      TraceKeysOk(b, nodes, actions, ok, n - 1);
      assert StepAt(b, nodes, actions, ok, n - 1);
      StepKeys(b, nodes[n - 1], actions[n - 1], ok[n - 1], nodes[n]);
    }
  }

  /** The last event of a node's key of one type within the first `n` steps. */
  function LastEvent(b: Backend, nodes: seq<Nodes>, actions: seq<Action>, ok: seq<bool>, n: nat, k: string,
                     t: KeyType): (e: Option<KeyEvent>)
    requires n <= |actions| == |ok| < |nodes|
  {
    if n == 0 then None else
    var e := KeyEventOf(b, nodes[n - 1], actions[n - 1], ok[n - 1], k, t);
    if e.Some? then e else LastEvent(b, nodes, actions, ok, n - 1, k, t)
  }

  function Clock(nodes: Nodes, k: string, t: KeyType): (r: Option<int>) {
    if k in nodes then CurrentKeyCreatedAt(nodes[k], t) else None
  }

  lemma ClockStep(b: Backend, nodes: seq<Nodes>, actions: seq<Action>, ok: seq<bool>, n: nat, k: string, t: KeyType)
    requires NodeTrace(b, nodes, actions, ok) && n < |actions| && k in nodes[n + 1]
    ensures var e := KeyEventOf(b, nodes[n], actions[n], ok[n], k, t);
            (k in nodes[n] || e.Some?) && Clock(nodes[n + 1], k, t) == ClockAfter(Clock(nodes[n], k, t), e)
  {
    TraceKeysOk(b, nodes, actions, ok, n);
    assert StepAt(b, nodes, actions, ok, n);
    StepKeys(b, nodes[n], actions[n], ok[n], nodes[n + 1]);
    assert KeyStepOf(b, nodes[n], actions[n], ok[n], k, nodes[n + 1][k]);
  }

  lemma {:induction false} ClockIsLastEvent(b: Backend, nodes: seq<Nodes>, actions: seq<Action>, ok: seq<bool>, n: nat,
                                            k: string, t: KeyType)
    requires NodeTrace(b, nodes, actions, ok) && n <= |actions| && k in nodes[n]
    ensures LastEvent(b, nodes, actions, ok, n, k, t).Some?
    ensures Clock(nodes[n], k, t) == ClockAfter(None, LastEvent(b, nodes, actions, ok, n, k, t))
  {
    ClockStep(b, nodes, actions, ok, n - 1, k, t);
    if k in nodes[n - 1] {
      ClockIsLastEvent(b, nodes, actions, ok, n - 1, k, t);
    }
  }

  lemma HistoryStep(b: Backend, nodes: seq<Nodes>, actions: seq<Action>, ok: seq<bool>, n: nat, k: string)
    requires NodeTrace(b, nodes, actions, ok) && n < |actions| && k in nodes[n] && k in nodes[n + 1]
    ensures Extends(nodes[n][k].keyHistory, nodes[n + 1][k].keyHistory)
  {
    TraceKeysOk(b, nodes, actions, ok, n);
    assert StepAt(b, nodes, actions, ok, n);
    StepKeys(b, nodes[n], actions[n], ok[n], nodes[n + 1]);
    assert KeyStepOf(b, nodes[n], actions[n], ok[n], k, nodes[n + 1][k]);
  }

  /** Nothing is removed from a history or un-revoked between two times at which the node exists. */
  lemma {:induction false} HistoryExtends(b: Backend, nodes: seq<Nodes>, actions: seq<Action>, ok: seq<bool>, m: nat,
                                          n: nat, k: string)
    requires NodeTrace(b, nodes, actions, ok) && m <= n <= |actions| && k in nodes[m] && k in nodes[n]
    ensures Extends(nodes[m][k].keyHistory, nodes[n][k].keyHistory)
  {
    if m < n {
      AliveBetween(b, nodes, actions, ok, m, n - 1, n, k);
      HistoryExtends(b, nodes, actions, ok, m, n - 1, k);
      HistoryStep(b, nodes, actions, ok, n - 1, k);
      ExtendsTransitive(nodes[m][k].keyHistory, nodes[n - 1][k].keyHistory, nodes[n][k].keyHistory);
    }
  }

  /**
   In every state of every run under either store: of each type at most the newest record
   is unrevoked and it holds the current key, and the age that the key policy looks at is
   that of the last registration or rotation of that type, or none if the node was revoked
   after it.
   */
  lemma KeyHistories(b: Backend, states: seq<State>, actions: seq<Action>, n: nat, k: string, t: KeyType)
    requires Run(b, states, actions) && n <= |actions| && k in states[n].nodes
    ensures OneAlive(states[n].nodes[k].keyHistory, t, CurrentKey(states[n].nodes[k], t))
    ensures var last := LastEvent(b, NodesOf(states), actions, Outcomes(states, actions), n, k, t);
            && last.Some?
            && CurrentKeyCreatedAt(states[n].nodes[k], t) == if last.value.Dead? then None else Some(last.value.at)
  {
    RunIsNodeTrace(b, states, actions);
    var nodes, ok := NodesOf(states), Outcomes(states, actions);
    TraceKeysOk(b, nodes, actions, ok, n);
    ClockIsLastEvent(b, nodes, actions, ok, n, k, t);
    assert KeysOk(nodes[n][k]);
  }
}
