/**
 The state that handlers mutate, with each handler's closure as a method that works in
 place and leaves early on errors, and the two stores that run them.
 */
module ControlState {
  import opened Base
  import opened Text
  import opened Model
  import opened Overlay
  import opened Handlers

  const MAX_REVISION: nat := 0xFFFF_FFFF_FFFF_FFFF

  function Bumped(s: State): (r: State) {
    s.(revision := if s.revision < MAX_REVISION then s.revision + 1 else MAX_REVISION)
  }

  // ---------------------------------------------------------------- loops

  /** `revoke_key_record`: marks the matching records of a mutable slice. */
  method RevokeKeyRecord(history: array<KeyRecord>, t: KeyType, key: string, now: int)
    modifies history
    ensures history[..] == RevokeRecords(old(history[..]), t, key, now)
  {
    for i := 0 to history.Length
      invariant forall j | 0 <= j < i :: history[j] == Revoked(old(history[j]), t, key, now)
      invariant forall j | i <= j < history.Length :: history[j] == old(history[j])
    {
      if history[i].keyType == t && history[i].publicKey == key {
        history[i] := history[i].(revokedAt := Some(now));
      }
    }
  }

  lemma UniqueStep(list: seq<string>, i: nat)
    requires i < |list|
    ensures Unique(list[..i + 1])
         == Unique(list[..i]) + (if list[i] in Unique(list[..i]) then [] else [list[i]])
    ensures TrimmedNonEmpty(list[..i + 1])
         == TrimmedNonEmpty(list[..i]) + (if Trim(list[i]) == "" then [] else [Trim(list[i])])
  {
    assert list[..i + 1][..i] == list[..i];
  }

  /** The set-backed deduplication of `merge_endpoints`. */
  method Deduplicate(list: seq<string>) returns (r: seq<string>)
    ensures r == Unique(list)
  {
    r := [];
    var seen: set<string> := {};
    for i := 0 to |list|
      invariant r == Unique(list[..i])
      invariant forall x :: x in seen <==> x in r
    {
      UniqueStep(list, i);
      if list[i] !in seen {
        seen := seen + {list[i]};
        r := r + [list[i]];
      }
    }
    assert list[..|list|] == list;
  }

  /** The tag loop of `update_node`: trimmed, without empty ones, without repetitions. */
  method CleanUpTags(tags: seq<string>) returns (r: seq<string>)
    ensures r == CleanTags(tags)
  {
    r := [];
    var seen: set<string> := {};
    for i := 0 to |tags|
      invariant r == Unique(TrimmedNonEmpty(tags[..i]))
      invariant forall x :: x in seen <==> x in r
    {
      UniqueStep(tags, i);
      var tag := Trim(tags[i]);
      if tag == "" {
        assert TrimmedNonEmpty(tags[..i + 1]) == TrimmedNonEmpty(tags[..i]);
        continue;
      }
      ghost var before := TrimmedNonEmpty(tags[..i]);
      assert TrimmedNonEmpty(tags[..i + 1]) == before + [tag];
      assert (before + [tag])[..|before|] == before;
      if tag !in seen {
        seen := seen + {tag};
        r := r + [tag];
      }
    }
    assert tags[..|tags|] == tags;
  }

  // ---------------------------------------------------------------- the state

  /** The reason names an overlap that there is; an IPv6 one is with a network whose IPv4 subnet is apart. */
  ghost predicate OverlapAs(networks: map<string, Network>, c4: Cidr4, c6: Cidr6, reason: Reason) {
    || (reason == Overlay4Overlaps && exists k :: k in networks && Overlap(c4, networks[k].overlay4, 32))
    || (&& reason == Overlay6Overlaps
        && exists k :: && k in networks
                       && !Overlap(c4, networks[k].overlay4, 32) && Overlap(c6, networks[k].overlay6, 128))
  }

  /** Which overlap is reported depends on the order of iteration; the specification has one error for both. */
  function Merged(r: Result<(), ApiError>): (r': Result<(), ApiError>) {
    if r == Err(Conflict(Overlay4Overlaps)) || r == Err(Conflict(Overlay6Overlaps)) then Err(Conflict(OverlayOverlaps))
    else r
  }

  class ControlState {
    var revision: nat
    var networks: map<string, Network>
    var nodes: map<string, Node>
    var tokens: map<string, Token>
    var audits: nat

    ghost function View(): (s: State)
      reads this
    {
      State(revision, networks, nodes, tokens, audits)
    }

    constructor (s: State)
      ensures View() == s
    {
      revision, networks, nodes, tokens, audits := s.revision, s.networks, s.nodes, s.tokens, s.audits;
    }

    /** The first overlap that the iteration comes upon, IPv4 before IPv6. */
    method AnyOverlap(c4: Cidr4, c6: Cidr6) returns (found: Option<Reason>)
      ensures found.Some? <==> Overlaps(View(), c4, c6)
      ensures found.Some? ==> OverlapAs(networks, c4, c6, found.value)
    {
      var todo := networks.Keys;
      while todo != {}
        invariant todo <= networks.Keys
        invariant forall k <- networks | k !in todo ::
                    !Overlap(c4, networks[k].overlay4, 32) && !Overlap(c6, networks[k].overlay6, 128)
        decreases |todo|
      {
        var k :| k in todo;
        if Overlap(c4, networks[k].overlay4, 32) {
          return Some(Overlay4Overlaps);
        }
        if Overlap(c6, networks[k].overlay6, 128) {
          return Some(Overlay6Overlaps);
        }
        todo := todo - {k};
      }
      return None;
    }

    /** `ensure_unique_node_name`. */
    method NameInUse(networkId: string, name: string, exclude: Option<string>) returns (taken: bool)
      ensures taken == NameTaken(nodes, networkId, name, exclude)
    {
      var todo := nodes.Keys;
      while todo != {}
        invariant todo <= nodes.Keys
        invariant forall k <- nodes | k !in todo :: !Claims(nodes[k], networkId, name, exclude)
        decreases |todo|
      {
        var k :| k in todo;
        if Claims(nodes[k], networkId, name, exclude) {
          return true;
        }
        todo := todo - {k};
      }
      return false;
    }

    method CreateNetwork(a: Action) returns (r: Result<(), ApiError>)
      requires a.CreateNetwork?
      modifies this
      ensures Outcome(View(), Merged(r)) == DoCreateNetwork(old(View()), a)
      ensures Merged(r) == Err(Conflict(OverlayOverlaps)) ==>
                && a.overlay4.Some? && a.overlay6.Some?
                && OverlapAs(old(networks), a.overlay4.value, a.overlay6.value, r.error.what)
    {
      if a.overlay4 == None {
        return Err(BadRequest(InvalidOverlay4));
      }
      if a.overlay6 == None {
        return Err(BadRequest(InvalidOverlay6));
      }
      var next4 := InitialIpv4Offset(a.overlay4.value);
      if next4 == None {
        return Err(BadRequest(OverlayTooSmall));
      }
      if a.networkId in networks {
        return Err(Conflict(NetworkExists));
      }
      var overlap := AnyOverlap(a.overlay4.value, a.overlay6.value);
      if overlap.Some? {
        return Err(Conflict(overlap.value));
      }
      networks := networks[a.networkId := FreshNetwork(a)];
      audits := audits + 1;
      if a.bootstrap.Some? {
        var b := a.bootstrap.value;
        var token := BuildToken(a.networkId, b.ttl, b.uses, b.tags, a.secret, a.now);
        if token.Err? {
          return Err(token.error);
        }
        tokens := tokens[a.secret := token.value];
      }
      return Ok(());
    }

    method CreateToken(a: Action) returns (r: Result<(), ApiError>)
      requires a.CreateToken?
      modifies this
      ensures Outcome(View(), r) == DoCreateToken(old(View()), a)
    {
      if a.networkId !in networks {
        return Err(NotFound(NoNetwork));
      }
      var token := BuildToken(networks[a.networkId].id, a.ttl, a.uses, a.tags, a.secret, a.now);
      if token.Err? {
        return Err(token.error);
      }
      tokens := tokens[a.secret := token.value];
      audits := audits + 1;
      return Ok(());
    }

    method RevokeToken(a: Action) returns (r: Result<(), ApiError>)
      requires a.RevokeToken?
      modifies this
      ensures Outcome(View(), r) == DoRevokeToken(old(View()), a)
    {
      if a.token !in tokens {
        return Err(NotFound(NoToken));
      }
      tokens := tokens[a.token := tokens[a.token].(revokedAt := Some(a.now))];
      audits := audits + 1;
      return Ok(());
    }

    /** `allocate_node_ips` on a network of the state: one cursor, then the other. */
    method AllocateNodeIps(id: string) returns (r: Result<(nat, nat), ApiError>)
      requires id in networks
      modifies this`networks
      ensures networks == old(networks)[id := Allocate(old(networks)[id]).network]
      ensures r == Allocate(old(networks)[id]).result
    {
      var n := networks[id];
      assert networks[id := n] == networks;
      var max4 := MaxIpv4Offset(n.overlay4);
      if max4 == None {
        return Err(Conflict(NoIpv4Hosts));
      }
      if n.nextIpv4 > max4.value {
        return Err(Conflict(Ipv4Exhausted));
      }
      var ip4 := First(n.overlay4, 32) + n.nextIpv4;
      networks := networks[id := n.(nextIpv4 := n.nextIpv4 + 1)];
      if n.nextIpv6 > MaxIpv6Offset(n.overlay6) {
        return Err(Conflict(Ipv6Exhausted));
      }
      var ip6 := First(n.overlay6, 128) + n.nextIpv6;
      networks := networks[id := networks[id].(nextIpv6 := n.nextIpv6 + 1)];
      return Ok((ip4, ip6));
    }

    /** The part that both registrations share. */
    method EnrollNode(networkId: string, draft: Node) returns (r: Result<(), ApiError>)
      requires networkId in networks
      modifies this
      ensures Outcome(View(), r) == Enroll(old(View()), networkId, draft)
    {
      var ips := AllocateNodeIps(networkId);
      if ips.Err? {
        return Err(ips.error);
      }
      nodes := nodes[draft.id := Placed(draft, networks[networkId], ips.value)];
      audits := audits + 1;
      return Ok(());
    }

    method CheckRegister(a: Action) returns (refusal: Option<ApiError>)
      requires a.Register?
      ensures refusal == RegisterRefusal(View(), a)
    {
      var name := Trim(a.name);
      if name == "" {
        return Some(BadRequest(EmptyName));
      }
      if a.token !in tokens {
        return Some(Unauthorized(TokenUnknown));
      }
      var token := tokens[a.token];
      if token.expiresAt <= a.now {
        return Some(Unauthorized(TokenExpired));
      }
      if token.revokedAt.Some? {
        return Some(Unauthorized(TokenRevoked));
      }
      if token.usesLeft == 0 {
        return Some(Unauthorized(TokenUsedUp));
      }
      var taken := NameInUse(token.networkId, name, None);
      if taken {
        return Some(Conflict(NameExists));
      }
      if token.networkId !in networks {
        return Some(NotFound(NoNetwork));
      }
      return None;
    }

    method Register(a: Action) returns (r: Result<(), ApiError>)
      requires a.Register?
      modifies this
      ensures Outcome(View(), r) == DoRegister(old(View()), a)
    {
      var refusal := CheckRegister(a);
      if refusal.Some? {
        return Err(refusal.value);
      }
      var state := State(revision, networks, nodes, tokens, audits);
      r := EnrollNode(tokens[a.token].networkId, RegisterDraft(state, a));
      if r.Ok? {
        UseToken(a.token);
      }
    }

    /** Takes one use off a token and removes it with the last one. */
    method UseToken(t: string)
      requires t in tokens
      modifies this`tokens
      ensures tokens == SpendToken(old(tokens), t)
    {
      var left := if tokens[t].usesLeft == 0 then 0 else tokens[t].usesLeft - 1;
      tokens := tokens[t := tokens[t].(usesLeft := left)];
      if left == 0 {
        tokens := tokens - {t};
        assert tokens == old(tokens) - {t};
      }
    }

    method CheckRegisterUrl(a: Action) returns (refusal: Option<ApiError>)
      requires a.RegisterUrl?
      ensures refusal == RegisterUrlRefusal(View(), a)
    {
      var ttl := if a.ttlSeconds.Some? then a.ttlSeconds.value else 600;
      if ttl == 0 {
        return Some(BadRequest(ZeroTtl));
      }
      var name := Trim(a.name);
      if name == "" {
        return Some(BadRequest(EmptyName));
      }
      var taken := NameInUse(a.networkId, name, None);
      if taken {
        return Some(Conflict(NameExists));
      }
      if a.networkId !in networks {
        return Some(NotFound(NoNetwork));
      }
      return None;
    }

    method RegisterUrl(a: Action) returns (r: Result<(), ApiError>)
      requires a.RegisterUrl?
      modifies this
      ensures Outcome(View(), r) == DoRegisterUrl(old(View()), a)
    {
      var refusal := CheckRegisterUrl(a);
      if refusal.Some? {
        return Err(refusal.value);
      }
      r := EnrollNode(a.networkId, RegisterUrlDraft(a));
    }

    method ApproveBySecret(a: Action) returns (r: Result<(), ApiError>)
      requires a.ApproveBySecret?
      modifies this
      ensures Outcome(View(), r) == DoApproveBySecret(old(View()), a)
    {
      if a.nodeId !in nodes {
        return Err(NotFound(NoNode));
      }
      var node := nodes[a.nodeId];
      if node.approved {
        return Ok(());
      }
      if node.authSecret == None {
        return Err(Unauthorized(ApprovalNotAllowed));
      }
      if node.authSecret.value != a.secret {
        return Err(Unauthorized(InvalidSecret));
      }
      if node.authExpiresAt.Some? && node.authExpiresAt.value <= a.now {
        return Err(Unauthorized(ApprovalExpired));
      }
      nodes := nodes[a.nodeId := Approved(node, a.now)];
      audits := audits + 1;
      return Ok(());
    }

    method ApproveByAdmin(a: Action) returns (r: Result<(), ApiError>)
      requires a.ApproveByAdmin?
      modifies this
      ensures Outcome(View(), r) == DoApproveByAdmin(old(View()), a)
    {
      if a.nodeId !in nodes {
        return Err(NotFound(NoNode));
      }
      if nodes[a.nodeId].approved {
        return Ok(());
      }
      nodes := nodes[a.nodeId := Approved(nodes[a.nodeId], a.now)];
      audits := audits + 1;
      return Ok(());
    }

    method CheckUpdate(a: Action) returns (refusal: Option<ApiError>)
      requires a.UpdateNode?
      ensures refusal == UpdateRefusal(View(), a)
    {
      if a.newName == None && a.newTags == None {
        return Some(BadRequest(NoFields));
      }
      if a.nodeId !in nodes {
        return Some(NotFound(NoNode));
      }
      var existing := nodes[a.nodeId];
      if a.newName.Some? {
        var normalized := Trim(a.newName.value);
        if normalized == "" {
          return Some(BadRequest(EmptyName));
        }
        if normalized != existing.name {
          var taken := NameInUse(existing.networkId, normalized, Some(existing.id));
          if taken {
            return Some(Conflict(NameExists));
          }
        }
      }
      return None;
    }

    method UpdateNode(a: Action) returns (r: Result<(), ApiError>)
      requires a.UpdateNode?
      modifies this
      ensures Outcome(View(), r) == DoUpdateNode(old(View()), a)
    {
      var refusal := CheckUpdate(a);
      if refusal.Some? {
        return Err(refusal.value);
      }
      var node := Renamed(nodes[a.nodeId], a.newName, a.newTags);
      r := StoreUpdated(a.nodeId, node);
    }

    /** Stores the changed node, looks up its network, and audits what changed. */
    method StoreUpdated(id: string, node: Node) returns (r: Result<(), ApiError>)
      requires id in nodes
      modifies this
      ensures Outcome(View(), r) == PutUpdated(old(View()), id, node)
    {
      var existing := nodes[id];
      nodes := nodes[id := node];
      if existing.networkId !in networks {
        return Err(NotFound(NoNetwork));
      }
      if node.name != existing.name || node.tags != existing.tags {
        audits := audits + 1;
      }
      return Ok(());
    }

    method Renamed(existing: Node, newName: Option<string>, newTags: Option<seq<string>>) returns (node: Node)
      ensures node == UpdatedNode(existing, newName, newTags)
    {
      node := existing;
      if newName.Some? {
        node := node.(name := Trim(newName.value));
      }
      if newTags.Some? {
        var tags := CleanUpTags(newTags.value);
        node := node.(tags := tags);
      }
    }

    method UpdateAcl(a: Action) returns (r: Result<(), ApiError>)
      requires a.UpdateAcl?
      modifies this
      ensures Outcome(View(), r) == DoUpdateAcl(old(View()), a)
    {
      if a.networkId !in networks {
        return Err(NotFound(NoNetwork));
      }
      networks := networks[a.networkId := networks[a.networkId].(acl := a.policy)];
      audits := audits + 1;
      return Ok(());
    }

    method UpdateKeyPolicy(a: Action) returns (r: Result<(), ApiError>)
      requires a.UpdateKeyPolicy?
      modifies this
      ensures Outcome(View(), r) == DoUpdateKeyPolicy(old(View()), a)
    {
      if a.networkId !in networks {
        return Err(NotFound(NoNetwork));
      }
      networks := networks[a.networkId := networks[a.networkId].(maxKeyAge := a.maxKeyAge)];
      audits := audits + 1;
      return Ok(());
    }

    /** Revokes the current key of one type and appends its successor. */
    method ReplaceKey(history: seq<KeyRecord>, t: KeyType, current: string, key: string, now: int)
      returns (r: seq<KeyRecord>)
      ensures r == RevokeRecords(history, t, current, now) + [KeyRecord(t, key, now, None)]
    {
      var records := new KeyRecord[|history|](i requires 0 <= i < |history| => history[i]);
      assert records[..] == history;
      RevokeKeyRecord(records, t, current, now);
      r := records[..] + [KeyRecord(t, key, now, None)];
    }

    method RotateKeys(a: Action) returns (r: Result<(), ApiError>)
      requires a.RotateKeys?
      modifies this
      ensures Outcome(View(), r) == DoRotateKeys(old(View()), a)
    {
      if a.newMachineKey == None && a.newWgKey == None {
        return Err(BadRequest(NoKeys));
      }
      if a.nodeId !in nodes {
        return Err(NotFound(NoNode));
      }
      var node := nodes[a.nodeId];
      assert nodes[a.nodeId := node] == nodes;
      if !Authorized(node, a.bearer, a.admin) {
        return Err(Unauthorized(NodeTokenRequired));
      }
      if a.newMachineKey.Some? {
        if node.machineKey == a.newMachineKey.value {
          return Err(BadRequest(MachineKeyUnchanged));
        }
        var history := ReplaceKey(node.keyHistory, Machine, node.machineKey, a.newMachineKey.value, a.now);
        node := node.(machineKey := a.newMachineKey.value, keyHistory := history);
        nodes := nodes[a.nodeId := node];
      }
      if a.newWgKey.Some? {
        if node.wgKey == a.newWgKey.value {
          return Err(BadRequest(WgKeyUnchanged));
        }
        var history := ReplaceKey(node.keyHistory, WireGuard, node.wgKey, a.newWgKey.value, a.now);
        node := node.(wgKey := a.newWgKey.value, keyHistory := history);
      }
      nodes := nodes[a.nodeId := node.(revokedAt := None)];
      audits := audits + 1;
      return Ok(());
    }

    method RevokeNode(a: Action) returns (r: Result<(), ApiError>)
      requires a.RevokeNode?
      modifies this
      ensures Outcome(View(), r) == DoRevokeNode(old(View()), a)
    {
      if a.nodeId !in nodes {
        return Err(NotFound(NoNode));
      }
      var node := nodes[a.nodeId];
      var history := node.keyHistory;
      var records := new KeyRecord[|history|](i requires 0 <= i < |history| => history[i]);
      assert records[..] == history;
      RevokeKeyRecord(records, Machine, node.machineKey, a.now);
      RevokeKeyRecord(records, WireGuard, node.wgKey, a.now);
      nodes := nodes[a.nodeId := node.(revokedAt := Some(a.now), keyHistory := records[..])];
      audits := audits + 1;
      return Ok(());
    }

    method DeleteNode(a: Action) returns (r: Result<(), ApiError>)
      requires a.DeleteNode?
      modifies this
      ensures Outcome(View(), r) == DoDeleteNode(old(View()), a)
    {
      if a.nodeId !in nodes {
        return Err(NotFound(NoNode));
      }
      nodes := nodes - {a.nodeId};
      audits := audits + 1;
      return Ok(());
    }

    method DeleteNetwork(a: Action) returns (r: Result<(), ApiError>)
      requires a.DeleteNetwork?
      modifies this
      ensures Outcome(View(), r) == DoDeleteNetwork(old(View()), a)
    {
      if a.networkId !in networks {
        return Err(NotFound(NoNetwork));
      }
      var connected := set k | k in nodes && nodes[k].networkId == a.networkId;
      if k :| k in connected {
        assert Inhabited(View(), a.networkId);
        return Err(Conflict(NetworkInhabited));
      }
      assert !Inhabited(View(), a.networkId) by {
        assert forall k <- nodes :: nodes[k].networkId == a.networkId ==> k in connected;
      }
      tokens := map t | t in tokens && tokens[t].networkId != a.networkId :: tokens[t];
      networks := networks - {a.networkId};
      audits := audits + 1;
      return Ok(());
    }

    method Heartbeat(a: Action) returns (r: Result<(), ApiError>)
      requires a.Heartbeat?
      modifies this
      ensures Outcome(View(), r) == DoHeartbeat(old(View()), a)
    {
      var endpoints := Deduplicate((if a.observed.Some? then [a.observed.value] else []) + a.endpoints);
      if a.nodeId !in nodes {
        return Err(NotFound(NoNode));
      }
      var node := nodes[a.nodeId];
      if !Authorized(node, a.bearer, a.admin) {
        return Err(Unauthorized(NodeTokenRequired));
      }
      node := node.(endpoints := endpoints, lastSeen := a.now);
      if a.probe {
        node := node.(probeRequestedAt := Some(a.now));
      }
      nodes := nodes[a.nodeId := node];
      return Ok(());
    }

    /** Runs the closure of any action on this state. */
    method Run(a: Action) returns (r: Result<(), ApiError>)
      modifies this
      ensures Outcome(View(), r) == Handle(old(View()), a)
    {
      match a
      case CreateNetwork(_, _, _, _, _, _, _, _, _) => {
        var c := CreateNetwork(a);
        r := Merged(c);
      }
      case CreateToken(_, _, _, _, _, _) => r := CreateToken(a);
      case RevokeToken(_, _) => r := RevokeToken(a);
      case Register(_, _, _, _, _, _, _) => r := Register(a);
      case RegisterUrl(_, _, _, _, _, _, _, _, _) => r := RegisterUrl(a);
      case ApproveBySecret(_, _, _) => r := ApproveBySecret(a);
      case ApproveByAdmin(_, _) => r := ApproveByAdmin(a);
      case UpdateNode(_, _, _) => r := UpdateNode(a);
      case UpdateAcl(_, _) => r := UpdateAcl(a);
      case UpdateKeyPolicy(_, _) => r := UpdateKeyPolicy(a);
      case RotateKeys(_, _, _, _, _, _) => r := RotateKeys(a);
      case RevokeNode(_, _) => r := RevokeNode(a);
      case DeleteNode(_) => r := DeleteNode(a);
      case DeleteNetwork(_) => r := DeleteNetwork(a);
      case Heartbeat(_, _, _, _, _, _, _) => r := Heartbeat(a);
    }
  }

  // ---------------------------------------------------------------- stores

  datatype Backend = File | Db

  /** One `write`: a failed write is rolled back by the database and kept by the file store. */
  ghost function Write(b: Backend, s: State, a: Action): (s': State) {
    var o := Handle(s, a);
    if o.result.Ok? then Bumped(o.state)
    else if b.File? then o.state
    else s
  }

  class FileStore {
    const inner: ControlState

    constructor (s: State)
      ensures inner.View() == s && fresh(inner)
    {
      inner := new ControlState(s);
    }

    method WriteAction(a: Action) returns (r: Result<(), ApiError>)
      modifies inner
      ensures inner.View() == Write(File, old(inner.View()), a)
      ensures r == Handle(old(inner.View()), a).result
    {
      r := inner.Run(a);
      if r.Ok? {
        inner.revision := if inner.revision < MAX_REVISION then inner.revision + 1 else MAX_REVISION;
      }
    }
  }

  class DbStore {
    var row: State

    constructor (s: State)
      ensures row == s
    {
      row := s;
    }

    /** Works on a copy read in a transaction; only a commit replaces the row. */
    method WriteAction(a: Action) returns (r: Result<(), ApiError>)
      modifies this
      ensures row == Write(Db, old(row), a)
      ensures r == Handle(old(row), a).result
    {
      var state := new ControlState(row);
      r := state.Run(a);
      if r.Ok? {
        state.revision := if state.revision < MAX_REVISION then state.revision + 1 else MAX_REVISION;
        row := State(state.revision, state.networks, state.nodes, state.tokens, state.audits);
      }
    }
  }
}
