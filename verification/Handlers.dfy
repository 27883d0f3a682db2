/**
 What each handler of src/api.rs does to the state inside its `write` closure, as a
 function: the state it leaves behind, and whether it reports success.  An error keeps
 whatever was changed before it, as the closure does; what becomes of that is up to the
 store (module ControlState).  Checks that precede the closure come first.

 Administrator checks are taken to have passed.  Times, identifiers and secrets that a
 handler draws are part of the action.
 */
module Handlers {
  import opened Base
  import opened Text
  import opened Model
  import opened Overlay

  datatype Bootstrap = Bootstrap(ttl: nat, uses: nat, tags: seq<string>)

  /** An overlay that did not parse is None. */
  datatype Action =
    | CreateNetwork(networkId: string, overlay4: Option<Cidr4>, overlay6: Option<Cidr6>, dnsDomain: string,
                    requiresApproval: bool, maxKeyAge: Option<nat>, bootstrap: Option<Bootstrap>,
                    secret: string, now: int)
    | CreateToken(networkId: string, ttl: nat, uses: nat, tags: seq<string>, secret: string, now: int)
    | RevokeToken(token: string, now: int)
    | Register(token: string, name: string, machineKey: string, wgKey: string,
               nodeId: string, nodeToken: string, now: int)
    | RegisterUrl(networkId: string, name: string, machineKey: string, wgKey: string, ttlSeconds: Option<nat>,
                  nodeId: string, nodeToken: string, secret: string, now: int)
    | ApproveBySecret(nodeId: string, secret: string, now: int)
    | ApproveByAdmin(nodeId: string, now: int)
    | UpdateNode(nodeId: string, newName: Option<string>, newTags: Option<seq<string>>)
    | UpdateAcl(networkId: string, policy: AclPolicy)
    | UpdateKeyPolicy(networkId: string, maxKeyAge: Option<nat>)
    | RotateKeys(nodeId: string, bearer: Option<string>, admin: Option<string>,
                 newMachineKey: Option<string>, newWgKey: Option<string>, now: int)
    | RevokeNode(nodeId: string, now: int)
    | DeleteNode(nodeId: string)
    | DeleteNetwork(networkId: string)
    | Heartbeat(nodeId: string, bearer: Option<string>, admin: Option<string>,
                endpoints: seq<string>, observed: Option<string>, probe: bool, now: int)

  datatype Outcome = Outcome(state: State, result: Result<(), ApiError>)

  function Fail(s: State, e: ApiError): (o: Outcome) {
    Outcome(s, Err(e))
  }

  // ---------------------------------------------------------------- helpers

  /** First occurrences only, in order. */
  function Unique(list: seq<string>): (r: seq<string>)
    ensures forall x :: x in r <==> x in list
  {
    if list == [] then [] else
    var front, last := Unique(list[..|list| - 1]), list[|list| - 1];
    assert list == list[..|list| - 1] + [last];
    if last in front then front else front + [last]
  }

  function TrimmedNonEmpty(list: seq<string>): (r: seq<string>) {
    if list == [] then [] else
    TrimmedNonEmpty(list[..|list| - 1]) + (if Trim(list[|list| - 1]) == "" then [] else [Trim(list[|list| - 1])])
  }

  function CleanTags(tags: seq<string>): (r: seq<string>) {
    Unique(TrimmedNonEmpty(tags))
  }

  function MergeEndpoints(provided: seq<string>, observed: Option<string>): (r: seq<string>) {
    Unique((if observed.Some? then [observed.value] else []) + provided)
  }

  /** An unrevoked node of the network, other than the excluded one, has this name. */
  ghost predicate NameTaken(nodes: map<string, Node>, networkId: string, name: string, exclude: Option<string>) {
    exists k :: k in nodes && Claims(nodes[k], networkId, name, exclude)
  }

  predicate Claims(node: Node, networkId: string, name: string, exclude: Option<string>) {
    && node.networkId == networkId
    && node.revokedAt == None
    && exclude != Some(node.id)
    && SameIgnoringCase(node.name, name)
  }

  /** `require_node`: the node's own token or the administrator's. */
  predicate Authorized(node: Node, bearer: Option<string>, admin: Option<string>) {
    node.nodeToken == None || (bearer.Some? && (bearer == node.nodeToken || bearer == admin))
  }

  function BuildToken(networkId: string, ttl: nat, uses: nat, tags: seq<string>, secret: string,
                      now: int): (r: Result<Token, ApiError>) {
    if ttl == 0 || uses == 0 then Err(BadRequest(ZeroTtlOrUses))
    else Ok(Token(secret, networkId, now + ttl, uses, tags, None))
  }

  function Revoked(r: KeyRecord, t: KeyType, key: string, now: int): (r': KeyRecord) {
    if r.keyType == t && r.publicKey == key then r.(revokedAt := Some(now)) else r
  }

  /** `revoke_key_record` on the whole history. */
  function RevokeRecords(history: seq<KeyRecord>, t: KeyType, key: string, now: int): (r: seq<KeyRecord>)
    ensures |r| == |history|
    ensures forall i | 0 <= i < |r| :: r[i] == Revoked(history[i], t, key, now)
  {
    seq(|history|, i requires 0 <= i < |history| => Revoked(history[i], t, key, now))
  }

  function NewKeys(machineKey: string, wgKey: string, now: int): (h: seq<KeyRecord>) {
    [KeyRecord(Machine, machineKey, now, None), KeyRecord(WireGuard, wgKey, now, None)]
  }

  function Audited(s: State): (r: State) {
    s.(audits := s.audits + 1)
  }

  function WithNode(s: State, node: Node): (r: State) {
    s.(nodes := s.nodes[node.id := node])
  }

  function PutNode(s: State, key: string, node: Node): (r: State) {
    s.(nodes := s.nodes[key := node])
  }

  // ---------------------------------------------------------------- networks and tokens

  /** Some existing network's overlay shares an address with the new ones. */
  ghost predicate Overlaps(s: State, c4: Cidr4, c6: Cidr6) {
    exists k :: k in s.networks && (Overlap(c4, s.networks[k].overlay4, 32) || Overlap(c6, s.networks[k].overlay6, 128))
  }

  /** Why a network is refused before anything changes. */
  ghost function CreateRefusal(s: State, a: Action): (r: Option<ApiError>)
    requires a.CreateNetwork?
    ensures r == None ==> a.overlay4.Some? && a.overlay6.Some? && InitialIpv4Offset(a.overlay4.value).Some?
  {
    if a.overlay4 == None then Some(BadRequest(InvalidOverlay4))
    else if a.overlay6 == None then Some(BadRequest(InvalidOverlay6))
    else if InitialIpv4Offset(a.overlay4.value) == None then Some(BadRequest(OverlayTooSmall))
    else if a.networkId in s.networks then Some(Conflict(NetworkExists))
    else if Overlaps(s, a.overlay4.value, a.overlay6.value) then Some(Conflict(OverlayOverlaps))
    else None
  }

  function FreshNetwork(a: Action): (n: Network)
    requires a.CreateNetwork? && a.overlay4.Some? && a.overlay6.Some? && InitialIpv4Offset(a.overlay4.value).Some?
  {
    Network(a.networkId, a.overlay4.value, a.overlay6.value, a.dnsDomain, a.requiresApproval,
            AclPolicy(Allow, []), a.maxKeyAge,
            InitialIpv4Offset(a.overlay4.value).value, InitialIpv6Offset(a.overlay6.value))
  }

  ghost function DoCreateNetwork(s: State, a: Action): (o: Outcome)
    requires a.CreateNetwork?
  {
    match CreateRefusal(s, a)
    case Some(e) => Fail(s, e)
    case None =>
      var s1 := Audited(s.(networks := s.networks[a.networkId := FreshNetwork(a)]));
      match a.bootstrap
      case None => Outcome(s1, Ok(()))
      case Some(b) =>
        match BuildToken(a.networkId, b.ttl, b.uses, b.tags, a.secret, a.now)
        case Err(e) => Fail(s1, e)
        case Ok(token) => Outcome(s1.(tokens := s.tokens[a.secret := token]), Ok(()))
  }

  function DoCreateToken(s: State, a: Action): (o: Outcome)
    requires a.CreateToken?
  {
    if a.networkId !in s.networks then Fail(s, NotFound(NoNetwork))
    else match BuildToken(s.networks[a.networkId].id, a.ttl, a.uses, a.tags, a.secret, a.now)
         case Err(e) => Fail(s, e)
         case Ok(token) => Outcome(Audited(s.(tokens := s.tokens[a.secret := token])), Ok(()))
  }

  function DoRevokeToken(s: State, a: Action): (o: Outcome)
    requires a.RevokeToken?
  {
    if a.token !in s.tokens then Fail(s, NotFound(NoToken))
    else Outcome(Audited(s.(tokens := s.tokens[a.token := s.tokens[a.token].(revokedAt := Some(a.now))])), Ok(()))
  }

  function DoUpdateAcl(s: State, a: Action): (o: Outcome)
    requires a.UpdateAcl?
  {
    if a.networkId !in s.networks then Fail(s, NotFound(NoNetwork))
    else Outcome(Audited(s.(networks := s.networks[a.networkId := s.networks[a.networkId].(acl := a.policy)])), Ok(()))
  }

  function DoUpdateKeyPolicy(s: State, a: Action): (o: Outcome)
    requires a.UpdateKeyPolicy?
  {
    if a.networkId !in s.networks then Fail(s, NotFound(NoNetwork))
    else
      var network := s.networks[a.networkId].(maxKeyAge := a.maxKeyAge);
      Outcome(Audited(s.(networks := s.networks[a.networkId := network])), Ok(()))
  }

  ghost predicate Inhabited(s: State, networkId: string) {
    exists k :: k in s.nodes && s.nodes[k].networkId == networkId
  }

  ghost function DoDeleteNetwork(s: State, a: Action): (o: Outcome)
    requires a.DeleteNetwork?
  {
    if a.networkId !in s.networks then Fail(s, NotFound(NoNetwork))
    else if Inhabited(s, a.networkId) then Fail(s, Conflict(NetworkInhabited))
    else Outcome(Audited(s.(tokens := map t | t in s.tokens && s.tokens[t].networkId != a.networkId :: s.tokens[t],
                            networks := s.networks - {a.networkId})), Ok(()))
  }

  // ---------------------------------------------------------------- registration

  /** A node before it has a network and addresses; unapproved, with two fresh keys. */
  function Draft(nodeId: string, name: string, machineKey: string, wgKey: string, tags: seq<string>, nodeToken: string,
                 now: int): (n: Node) {
    Node(nodeId, "", name, machineKey, wgKey, 0, 0, [], tags, now, None,
         false, None, None, None, Some(nodeToken), None, NewKeys(machineKey, wgKey, now))
  }

  function Placed(draft: Node, network: Network, ips: (nat, nat)): (n: Node) {
    draft.(networkId := network.id, ipv4 := ips.0, ipv6 := ips.1)
  }

  /** Allocates addresses and inserts the node; a failed allocation may have moved a cursor. */
  function Enroll(s: State, networkId: string, draft: Node): (o: Outcome)
    requires networkId in s.networks
  {
    var alloc := Allocate(s.networks[networkId]);
    var s1 := s.(networks := s.networks[networkId := alloc.network]);
    match alloc.result
    case Err(e) => Fail(s1, e)
    case Ok(ips) => Outcome(Audited(WithNode(s1, Placed(draft, alloc.network, ips))), Ok(()))
  }

  function SpendToken(tokens: map<string, Token>, t: string): (r: map<string, Token>)
    requires t in tokens
  {
    var left := if tokens[t].usesLeft == 0 then 0 else tokens[t].usesLeft - 1;
    if left == 0 then tokens - {t} else tokens[t := tokens[t].(usesLeft := left)]
  }

  /** Why a registration with a token is refused before anything changes. */
  ghost function RegisterRefusal(s: State, a: Action): (r: Option<ApiError>)
    requires a.Register?
    ensures r == None ==> a.token in s.tokens && s.tokens[a.token].networkId in s.networks
  {
    if Trim(a.name) == "" then Some(BadRequest(EmptyName))
    else if a.token !in s.tokens then Some(Unauthorized(TokenUnknown))
    else
      var token := s.tokens[a.token];
      if token.expiresAt <= a.now then Some(Unauthorized(TokenExpired))
      else if token.revokedAt.Some? then Some(Unauthorized(TokenRevoked))
      else if token.usesLeft == 0 then Some(Unauthorized(TokenUsedUp))
      else if NameTaken(s.nodes, token.networkId, Trim(a.name), None) then Some(Conflict(NameExists))
      else if token.networkId !in s.networks then Some(NotFound(NoNetwork))
      else None
  }

  function RegisterDraft(s: State, a: Action): (n: Node)
    requires a.Register? && a.token in s.tokens && s.tokens[a.token].networkId in s.networks
  {
    var token := s.tokens[a.token];
    var approved := !s.networks[token.networkId].requiresApproval;
    Draft(a.nodeId, Trim(a.name), a.machineKey, a.wgKey, token.tags, a.nodeToken, a.now)
      .(approved := approved, approvedAt := if approved then Some(a.now) else None)
  }

  ghost function DoRegister(s: State, a: Action): (o: Outcome)
    requires a.Register?
  {
    match RegisterRefusal(s, a)
    case Some(e) => Fail(s, e)
    case None =>
      var o := Enroll(s, s.tokens[a.token].networkId, RegisterDraft(s, a));
      if o.result.Err? then o else Outcome(o.state.(tokens := SpendToken(s.tokens, a.token)), Ok(()))
  }

  function UrlTtl(a: Action): (ttl: nat)
    requires a.RegisterUrl?
  {
    if a.ttlSeconds.Some? then a.ttlSeconds.value else 600
  }

  ghost function RegisterUrlRefusal(s: State, a: Action): (r: Option<ApiError>)
    requires a.RegisterUrl?
    ensures r == None ==> a.networkId in s.networks
  {
    if UrlTtl(a) == 0 then Some(BadRequest(ZeroTtl))
    else if Trim(a.name) == "" then Some(BadRequest(EmptyName))
    else if NameTaken(s.nodes, a.networkId, Trim(a.name), None) then Some(Conflict(NameExists))
    else if a.networkId !in s.networks then Some(NotFound(NoNetwork))
    else None
  }

  function RegisterUrlDraft(a: Action): (n: Node)
    requires a.RegisterUrl?
  {
    Draft(a.nodeId, Trim(a.name), a.machineKey, a.wgKey, [], a.nodeToken, a.now)
      .(authSecret := Some(a.secret), authExpiresAt := Some(a.now + UrlTtl(a)))
  }

  ghost function DoRegisterUrl(s: State, a: Action): (o: Outcome)
    requires a.RegisterUrl?
  {
    match RegisterUrlRefusal(s, a)
    case Some(e) => Fail(s, e)
    case None => Enroll(s, a.networkId, RegisterUrlDraft(a))
  }

  // ---------------------------------------------------------------- nodes

  function Approved(node: Node, now: int): (n: Node) {
    node.(approved := true, approvedAt := Some(now), authSecret := None, authExpiresAt := None)
  }

  function DoApproveBySecret(s: State, a: Action): (o: Outcome)
    requires a.ApproveBySecret?
  {
    if a.nodeId !in s.nodes then Fail(s, NotFound(NoNode))
    else
      var node := s.nodes[a.nodeId];
      if node.approved then Outcome(s, Ok(()))
      else if node.authSecret == None then Fail(s, Unauthorized(ApprovalNotAllowed))
      else if node.authSecret != Some(a.secret) then Fail(s, Unauthorized(InvalidSecret))
      else if node.authExpiresAt.Some? && node.authExpiresAt.value <= a.now then Fail(s, Unauthorized(ApprovalExpired))
      else Outcome(Audited(PutNode(s, a.nodeId, Approved(node, a.now))), Ok(()))
  }

  function DoApproveByAdmin(s: State, a: Action): (o: Outcome)
    requires a.ApproveByAdmin?
  {
    if a.nodeId !in s.nodes then Fail(s, NotFound(NoNode))
    else if s.nodes[a.nodeId].approved then Outcome(s, Ok(()))
    else Outcome(Audited(PutNode(s, a.nodeId, Approved(s.nodes[a.nodeId], a.now))), Ok(()))
  }

  /** Why an update of a node is refused before anything changes. */
  ghost function UpdateRefusal(s: State, a: Action): (r: Option<ApiError>)
    requires a.UpdateNode?
    ensures r == None ==> a.nodeId in s.nodes
  {
    if a.newName == None && a.newTags == None then Some(BadRequest(NoFields))
    else if a.nodeId !in s.nodes then Some(NotFound(NoNode))
    else
      var node := s.nodes[a.nodeId];
      if a.newName.Some? && Trim(a.newName.value) == "" then Some(BadRequest(EmptyName))
      else if a.newName.Some? && Trim(a.newName.value) != node.name
              && NameTaken(s.nodes, node.networkId, Trim(a.newName.value), Some(node.id))
      then Some(Conflict(NameExists))
      else None
  }

  function UpdatedNode(node: Node, newName: Option<string>, newTags: Option<seq<string>>): (n: Node) {
    node.(name := if newName.Some? then Trim(newName.value) else node.name,
          tags := if newTags.Some? then CleanTags(newTags.value) else node.tags)
  }

  /** The network is looked up only after the node was changed. */
  ghost function DoUpdateNode(s: State, a: Action): (o: Outcome)
    requires a.UpdateNode?
  {
    match UpdateRefusal(s, a)
    case Some(e) => Fail(s, e)
    case None =>
      PutUpdated(s, a.nodeId, UpdatedNode(s.nodes[a.nodeId], a.newName, a.newTags))
  }

  function PutUpdated(s: State, id: string, node': Node): (o: Outcome)
    requires id in s.nodes
  {
    var node, s1 := s.nodes[id], PutNode(s, id, node');
    if node.networkId !in s.networks then Fail(s1, NotFound(NoNetwork))
    else Outcome(if node'.name != node.name || node'.tags != node.tags then Audited(s1) else s1, Ok(()))
  }

  function RotateMachine(node: Node, key: string, now: int): (n: Node) {
    node.(machineKey := key,
          keyHistory := RevokeRecords(node.keyHistory, Machine, node.machineKey, now)
                        + [KeyRecord(Machine, key, now, None)])
  }

  function RotateWireGuard(node: Node, key: string, now: int): (n: Node) {
    node.(wgKey := key,
          keyHistory := RevokeRecords(node.keyHistory, WireGuard, node.wgKey, now)
                        + [KeyRecord(WireGuard, key, now, None)])
  }

  function DoRotateKeys(s: State, a: Action): (o: Outcome)
    requires a.RotateKeys?
  {
    if a.newMachineKey == None && a.newWgKey == None then Fail(s, BadRequest(NoKeys))
    else if a.nodeId !in s.nodes then Fail(s, NotFound(NoNode))
    else
      var node := s.nodes[a.nodeId];
      if !Authorized(node, a.bearer, a.admin) then Fail(s, Unauthorized(NodeTokenRequired))
      else if a.newMachineKey == Some(node.machineKey) then Fail(s, BadRequest(MachineKeyUnchanged))
      else
        var n1 := if a.newMachineKey.Some? then RotateMachine(node, a.newMachineKey.value, a.now) else node;
        if a.newWgKey == Some(node.wgKey) then Fail(PutNode(s, a.nodeId, n1), BadRequest(WgKeyUnchanged))
        else
          var n2 := if a.newWgKey.Some? then RotateWireGuard(n1, a.newWgKey.value, a.now) else n1;
          Outcome(Audited(PutNode(s, a.nodeId, n2.(revokedAt := None))), Ok(()))
  }

  function RevokedNode(node: Node, now: int): (n: Node) {
    var h1 := RevokeRecords(node.keyHistory, Machine, node.machineKey, now);
    node.(revokedAt := Some(now), keyHistory := RevokeRecords(h1, WireGuard, node.wgKey, now))
  }

  function DoRevokeNode(s: State, a: Action): (o: Outcome)
    requires a.RevokeNode?
  {
    if a.nodeId !in s.nodes then Fail(s, NotFound(NoNode))
    else Outcome(Audited(PutNode(s, a.nodeId, RevokedNode(s.nodes[a.nodeId], a.now))), Ok(()))
  }

  function DoDeleteNode(s: State, a: Action): (o: Outcome)
    requires a.DeleteNode?
  {
    if a.nodeId !in s.nodes then Fail(s, NotFound(NoNode))
    else Outcome(Audited(s.(nodes := s.nodes - {a.nodeId})), Ok(()))
  }

  function DoHeartbeat(s: State, a: Action): (o: Outcome)
    requires a.Heartbeat?
  {
    if a.nodeId !in s.nodes then Fail(s, NotFound(NoNode))
    else
      var node := s.nodes[a.nodeId];
      if !Authorized(node, a.bearer, a.admin) then Fail(s, Unauthorized(NodeTokenRequired))
      else
        var probe := if a.probe then Some(a.now) else node.probeRequestedAt;
        Outcome(PutNode(s, a.nodeId, node.(endpoints := MergeEndpoints(a.endpoints, a.observed), lastSeen := a.now,
                                           probeRequestedAt := probe)), Ok(()))
  }

  /** The closure of any action. */
  ghost function Handle(s: State, a: Action): (o: Outcome) {
    match a
    case CreateNetwork(_, _, _, _, _, _, _, _, _) => DoCreateNetwork(s, a)
    case CreateToken(_, _, _, _, _, _) => DoCreateToken(s, a)
    case RevokeToken(_, _) => DoRevokeToken(s, a)
    case Register(_, _, _, _, _, _, _) => DoRegister(s, a)
    case RegisterUrl(_, _, _, _, _, _, _, _, _) => DoRegisterUrl(s, a)
    case ApproveBySecret(_, _, _) => DoApproveBySecret(s, a)
    case ApproveByAdmin(_, _) => DoApproveByAdmin(s, a)
    case UpdateNode(_, _, _) => DoUpdateNode(s, a)
    case UpdateAcl(_, _) => DoUpdateAcl(s, a)
    case UpdateKeyPolicy(_, _) => DoUpdateKeyPolicy(s, a)
    case RotateKeys(_, _, _, _, _, _) => DoRotateKeys(s, a)
    case RevokeNode(_, _) => DoRevokeNode(s, a)
    case DeleteNode(_) => DoDeleteNode(s, a)
    case DeleteNetwork(_) => DoDeleteNetwork(s, a)
    case Heartbeat(_, _, _, _, _, _, _) => DoHeartbeat(s, a)
  }
}
