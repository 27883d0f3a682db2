/**
 The control plane's records (src/model.rs, src/state.rs).  Addresses are numbers and an
 overlay is an address with a prefix length.  Fields that no handler branches on (owners,
 routes, display names, creation times of networks) are not modelled; the audit log is
 its length.
 */
module Model {
  import opened Base

  /** The fixed texts of error responses, by name. */
  datatype Reason =
    | NoNetwork | NoNode | NoToken | InvalidOverlay4 | InvalidOverlay6 | OverlayTooSmall | ZeroTtlOrUses | ZeroTtl
    | EmptyName | NoFields | NoKeys | MachineKeyUnchanged | WgKeyUnchanged | TokenUnknown | TokenExpired
    | TokenRevoked | TokenUsedUp | ApprovalNotAllowed | InvalidSecret | ApprovalExpired | NodeTokenRequired
    | NetworkExists | OverlayOverlaps | Overlay4Overlaps | Overlay6Overlaps | NetworkInhabited | NameExists
    | NoIpv4Hosts | Ipv4Exhausted | Ipv6Exhausted

  datatype ApiError =
    | NotFound(what: Reason)
    | BadRequest(what: Reason)
    | Unauthorized(what: Reason)
    | Conflict(what: Reason)
    | Internal

  // ---------------------------------------------------------------- overlays

  function Pow2(n: nat): (p: nat)
    ensures p >= 1
  {
    if n == 0 then 1 else 2 * Pow2(n - 1)
  }

  datatype Cidr = Cidr(addr: nat, prefix: nat)

  const IPV4_SPACE: nat := 0x1_0000_0000
  const IPV6_SPACE: nat := 0x1_0000_0000_0000_0000_0000_0000_0000_0000

  type Cidr4 = c: Cidr | c.prefix <= 32 && c.addr < IPV4_SPACE witness Cidr(0, 0)
  type Cidr6 = c: Cidr | c.prefix <= 128 && c.addr < IPV6_SPACE witness Cidr(0, 0)

  // ---------------------------------------------------------------- access control

  datatype AclAction = Allow | Deny

  datatype AclSelector = AclSelector(any: bool, tags: seq<string>, nodeIds: seq<string>, names: seq<string>)

  datatype AclRule = AclRule(action: AclAction, src: AclSelector, dst: AclSelector)

  datatype AclPolicy = AclPolicy(defaultAction: AclAction, rules: seq<AclRule>)

  // ---------------------------------------------------------------- state

  datatype Network = Network(
    id: string, overlay4: Cidr4, overlay6: Cidr6, dnsDomain: string, requiresApproval: bool,
    acl: AclPolicy, maxKeyAge: Option<nat>, nextIpv4: nat, nextIpv6: nat)

  datatype KeyType = Machine | WireGuard

  datatype KeyRecord = KeyRecord(keyType: KeyType, publicKey: string, createdAt: int, revokedAt: Option<int>)

  datatype Node = Node(
    id: string, networkId: string, name: string, machineKey: string, wgKey: string, ipv4: nat, ipv6: nat,
    endpoints: seq<string>, tags: seq<string>, lastSeen: int, probeRequestedAt: Option<int>,
    approved: bool, approvedAt: Option<int>, authSecret: Option<string>, authExpiresAt: Option<int>,
    nodeToken: Option<string>, revokedAt: Option<int>, keyHistory: seq<KeyRecord>)

  datatype Token = Token(
    token: string, networkId: string, expiresAt: int, usesLeft: nat, tags: seq<string>, revokedAt: Option<int>)

  datatype State = State(
    revision: nat, networks: map<string, Network>, nodes: map<string, Node>, tokens: map<string, Token>, audits: nat)

  const DEFAULT_STATE := State(0, map[], map[], map[], 0)
}
