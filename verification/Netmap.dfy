/**
 What a node is told about its network (src/api.rs, from `netmap_longpoll` to
 `selector_matches`): which peers, which probe requests, and when a long poll answers.
 Relay settings, routes and owners are not modelled.
 */
module Netmap {
  import opened Base
  import opened Model
  import opened Handlers
  import opened ControlState
  import opened Addresses
  import opened Runs
  import opened NodeRuns
  import opened KeyHistory
  import opened Overlay
  import opened Revision

  // ---------------------------------------------------------------- effective status

  const I64_MAX: int := 0x7FFF_FFFF_FFFF_FFFF
  const U64_SPACE: int := 0x1_0000_0000_0000_0000

  /** `as i64` on a u64. */
  function AsI64(n: nat): (r: int) {
    var m := n % U64_SPACE;
    if m > I64_MAX then m - U64_SPACE else m
  }

  /** `i64::saturating_sub`. */
  function SaturatingSub(a: int, b: int): (r: int) {
    var d := a - b;
    if d > I64_MAX then I64_MAX else if d < -I64_MAX - 1 then -I64_MAX - 1 else d
  }

  predicate TooOld(createdAt: Option<int>, maxAge: int, now: int) {
    createdAt.Some? && SaturatingSub(now, createdAt.value) > maxAge
  }

  datatype Status = Status(approved: bool, rotationRequired: bool)

  /** `effective_node_status`. */
  function EffectiveStatus(node: Node, maxKeyAge: Option<nat>, now: int): (r: Status) {
    var rotationRequired :=
      maxKeyAge.Some? &&
      (|| TooOld(CurrentKeyCreatedAt(node, Machine), AsI64(maxKeyAge.value), now)
       || TooOld(CurrentKeyCreatedAt(node, WireGuard), AsI64(maxKeyAge.value), now));
    Status(node.approved && node.revokedAt == None && !rotationRequired, rotationRequired)
  }

  /** The age limit that a u64 policy amounts to after the cast. */
  function Limit(age: nat): (limit: int) {
    if age <= I64_MAX then age else age - U64_SPACE
  }

  /**
   The last event of a key was a renewal longer ago than the limit.  A saturated difference
   is never larger than the largest i64, so that limit is never passed.
   */
  predicate Stale(e: Option<KeyEvent>, age: nat, now: int) {
    e.Some? && e.value.Renewed? && now - e.value.at > Limit(age) && Limit(age) < I64_MAX
  }

  lemma TooOldIsStale(e: Option<KeyEvent>, age: nat, now: int)
    requires age < U64_SPACE
    ensures TooOld(ClockAfter(None, e), AsI64(age), now) <==> Stale(e, age, now)
  {
  }

  /**
   A policy beyond the largest i64 turns negative: a key is too old unless it is dated that
   much after the present.
   */
  lemma WrappedPolicy(created: int, age: nat, now: int)
    requires I64_MAX < age < U64_SPACE
    ensures TooOld(Some(created), AsI64(age), now) <==> created - now < U64_SPACE - age
    ensures created <= now ==> TooOld(Some(created), AsI64(age), now)
  {
    TooOldIsStale(Some(Renewed(created)), age, now);
  }

  /**
   On every run, for every u64 policy and every clock, a rotation is demanded exactly if one
   of the two keys was last registered or rotated longer ago than the limit, and the node
   was not revoked after that.
   */
  lemma RotationDemandedIff(b: Backend, states: seq<State>, actions: seq<Action>, n: nat, k: string, age: nat, now: int)
    requires Run(b, states, actions) && n <= |actions| && k in states[n].nodes && age < U64_SPACE
    ensures EffectiveStatus(states[n].nodes[k], Some(age), now).rotationRequired <==>
              || Stale(LastEvent(b, NodesOf(states), actions, Outcomes(states, actions), n, k, Machine), age, now)
              || Stale(LastEvent(b, NodesOf(states), actions, Outcomes(states, actions), n, k, WireGuard), age, now)
  {
    KeyHistories(b, states, actions, n, k, Machine);
    KeyHistories(b, states, actions, n, k, WireGuard);
    TooOldIsStale(LastEvent(b, NodesOf(states), actions, Outcomes(states, actions), n, k, Machine), age, now);
    TooOldIsStale(LastEvent(b, NodesOf(states), actions, Outcomes(states, actions), n, k, WireGuard), age, now);
  }

  // ---------------------------------------------------------------- access control

  /** `selector_matches`. */
  predicate SelectorMatches(node: Node, selector: AclSelector) {
    || selector.any
    || (selector.tags == [] && selector.nodeIds == [] && selector.names == [])
    || node.id in selector.nodeIds
    || node.name in selector.names
    || exists tag :: tag in selector.tags && tag in node.tags
  }

  predicate RuleMatches(rule: AclRule, src: Node, dst: Node) {
    SelectorMatches(src, rule.src) && SelectorMatches(dst, rule.dst)
  }

  ghost predicate FirstMatch(rules: seq<AclRule>, src: Node, dst: Node, i: nat) {
    && i < |rules| && RuleMatches(rules[i], src, dst)
    && forall j | 0 <= j < i :: !RuleMatches(rules[j], src, dst)
  }

  ghost predicate NoMatch(rules: seq<AclRule>, src: Node, dst: Node) {
    forall j | 0 <= j < |rules| :: !RuleMatches(rules[j], src, dst)
  }

  /** The first matching rule decides, or else the default. */
  ghost predicate Permits(policy: AclPolicy, src: Node, dst: Node) {
    || (exists i: nat :: FirstMatch(policy.rules, src, dst, i) && policy.rules[i].action == Allow)
    || (NoMatch(policy.rules, src, dst) && policy.defaultAction == Allow)
  }

  /** `acl_allows`. */
  method AclAllows(policy: AclPolicy, src: Node, dst: Node) returns (r: bool)
    ensures r <==> Permits(policy, src, dst)
  {
    for i := 0 to |policy.rules|
      invariant forall j | 0 <= j < i :: !RuleMatches(policy.rules[j], src, dst)
    {
      if RuleMatches(policy.rules[i], src, dst) {
        assert FirstMatch(policy.rules, src, dst, i);
        r := policy.rules[i].action == Allow;
        OneFirst(policy.rules, src, dst, i);
        return;
      }
    }
    r := policy.defaultAction == Allow;
  }

  lemma OneFirst(rules: seq<AclRule>, src: Node, dst: Node, i: nat)
    requires FirstMatch(rules, src, dst, i)
    ensures !NoMatch(rules, src, dst)
    ensures forall j: nat | FirstMatch(rules, src, dst, j) :: j == i
  {
  }

  /** A further rule counts only for pairs that no rule before it matches. */
  lemma AppendedRule(policy: AclPolicy, rule: AclRule, src: Node, dst: Node)
    ensures Permits(policy.(rules := policy.rules + [rule]), src, dst) <==>
              if NoMatch(policy.rules, src, dst) && RuleMatches(rule, src, dst) then rule.action == Allow
              else Permits(policy, src, dst)
  {
    var rules, longer := policy.rules, policy.rules + [rule];
    if !NoMatch(rules, src, dst) {
      var i := FirstOf(rules, src, dst);
      FirstStays(rules, rule, src, dst, i);
      OneFirst(rules, src, dst, i);
      OneFirst(longer, src, dst, i);
    } else if RuleMatches(rule, src, dst) {
      assert FirstMatch(longer, src, dst, |rules|);
      OneFirst(longer, src, dst, |rules|);
    } else {
      assert NoMatch(longer, src, dst);
    }
  }

  lemma FirstStays(rules: seq<AclRule>, rule: AclRule, src: Node, dst: Node, i: nat)
    requires FirstMatch(rules, src, dst, i)
    ensures FirstMatch(rules + [rule], src, dst, i)
  {
  }

  lemma {:induction false} FirstOf(rules: seq<AclRule>, src: Node, dst: Node) returns (i: nat)
    requires !NoMatch(rules, src, dst)
    ensures FirstMatch(rules, src, dst, i)
  {
    var n := |rules| - 1;
    var front := rules[..n];
    assert rules == front + [rules[n]];
    if NoMatch(front, src, dst) {
      i := n;
    } else {
      i := FirstOf(front, src, dst);
      FirstStays(front, rules[n], src, dst, i);
    }
  }

  // ---------------------------------------------------------------- peers

  datatype PeerInfo = PeerInfo(
    id: string, name: string, dnsName: string, ipv4: nat, ipv6: nat, wgKey: string,
    endpoints: seq<string>, tags: seq<string>, lastSeen: int)

  function PeerOf(node: Node, domain: string): (p: PeerInfo) {
    PeerInfo(node.id, node.name, node.name + "." + domain, node.ipv4, node.ipv6, node.wgKey,
             node.endpoints, node.tags, node.lastSeen)
  }

  /** Who is shown to `src` in the network. */
  ghost predicate Shown(network: Network, node: Node, exclude: string, src: Node, now: int) {
    && node.networkId == network.id
    && EffectiveStatus(node, network.maxKeyAge, now).approved
    && node.id != exclude
    && Permits(network.acl, src, node)
  }

  /** The peers are those of the listed keys, in that order. */
  ghost predicate ListsPeers(network: Network, nodes: Nodes, order: seq<string>, peers: seq<PeerInfo>) {
    && |peers| == |order|
    && (forall i | 0 <= i < |order| :: order[i] in nodes && peers[i] == PeerOf(nodes[order[i]], network.dnsDomain))
    && (forall i, j | 0 <= i < j < |order| :: order[i] != order[j])
  }

  ghost predicate OrderOfShown(network: Network, nodes: Nodes, exclude: string, src: Node, now: int, done: set<string>,
                               order: seq<string>) {
    forall k :: k in order <==> k in done && k in nodes && Shown(network, nodes[k], exclude, src, now)
  }

  /** `collect_peers`, for any order of iteration. */
  method CollectPeers(network: Network, nodes: Nodes, exclude: string, src: Node, now: int)
    returns (peers: seq<PeerInfo>, ghost order: seq<string>)
    ensures ListsPeers(network, nodes, order, peers)
    ensures OrderOfShown(network, nodes, exclude, src, now, nodes.Keys, order)
  {
    peers, order := [], [];
    var todo := nodes.Keys;
    while todo != {}
      invariant todo <= nodes.Keys
      invariant ListsPeers(network, nodes, order, peers)
      invariant OrderOfShown(network, nodes, exclude, src, now, nodes.Keys - todo, order)
    {
      var k :| k in todo;
      var node := nodes[k];
      var shown := false;
      if node.networkId == network.id && EffectiveStatus(node, network.maxKeyAge, now).approved && node.id != exclude {
        shown := AclAllows(network.acl, src, node);
      }
      ShowNext(network, nodes, exclude, src, now, nodes.Keys - todo, order, peers, k, shown);
      if shown {
        peers, order := peers + [PeerOf(node, network.dnsDomain)], order + [k];
      }
      assert nodes.Keys - (todo - {k}) == nodes.Keys - todo + {k};
      todo := todo - {k};
    }
    assert nodes.Keys - todo == nodes.Keys;
  }

  lemma ShowNext(network: Network, nodes: Nodes, exclude: string, src: Node, now: int, done: set<string>,
                 order: seq<string>, peers: seq<PeerInfo>, k: string, shown: bool)
    requires k in nodes && k !in done && (shown <==> Shown(network, nodes[k], exclude, src, now))
    requires ListsPeers(network, nodes, order, peers) && OrderOfShown(network, nodes, exclude, src, now, done, order)
    ensures var order' := order + (if shown then [k] else []);
            var peers' := peers + (if shown then [PeerOf(nodes[k], network.dnsDomain)] else []);
            && ListsPeers(network, nodes, order', peers')
            && OrderOfShown(network, nodes, exclude, src, now, done + {k}, order')
  {
    assert k !in order;
  }

  // ---------------------------------------------------------------- probe requests

  datatype ProbeRequest = ProbeRequest(peerId: string, endpoints: seq<string>, ipv4: nat, ipv6: nat, requestedAt: int)

  const PROBE_TTL_SECONDS: int := 30

  /** The node asked to be probed no more than half a minute ago. */
  predicate Probing(nodes: Nodes, id: string, now: int) {
    && id in nodes && nodes[id].probeRequestedAt.Some?
    && SaturatingSub(now, nodes[id].probeRequestedAt.value) <= PROBE_TTL_SECONDS
  }

  function ProbeOf(nodes: Nodes, peer: PeerInfo, now: int): (r: ProbeRequest)
    requires Probing(nodes, peer.id, now)
  {
    ProbeRequest(peer.id, peer.endpoints, peer.ipv4, peer.ipv6, nodes[peer.id].probeRequestedAt.value)
  }

  /** The probes are those of the listed peers, in their order. */
  ghost predicate ListsProbes(nodes: Nodes, peers: seq<PeerInfo>, now: int, picks: seq<nat>,
                              probes: seq<ProbeRequest>) {
    && |picks| == |probes|
    && (forall i | 0 <= i < |picks| ::
          && picks[i] < |peers| && Probing(nodes, peers[picks[i]].id, now)
          && probes[i] == ProbeOf(nodes, peers[picks[i]], now))
    && (forall i, j | 0 <= i < j < |picks| :: picks[i] < picks[j])
  }

  ghost predicate PicksProbing(nodes: Nodes, peers: seq<PeerInfo>, now: int, picks: seq<nat>, n: nat)
    requires n <= |peers|
  {
    forall i: nat :: i in picks <==> i < n && Probing(nodes, peers[i].id, now)
  }

  /** `collect_probe_requests`. */
  method CollectProbeRequests(nodes: Nodes, peers: seq<PeerInfo>, now: int)
    returns (probes: seq<ProbeRequest>, ghost picks: seq<nat>)
    ensures ListsProbes(nodes, peers, now, picks, probes) && PicksProbing(nodes, peers, now, picks, |peers|)
  {
    probes, picks := [], [];
    for n := 0 to |peers|
      invariant ListsProbes(nodes, peers, now, picks, probes)
      invariant PicksProbing(nodes, peers, now, picks, n)
    {
      if Probing(nodes, peers[n].id, now) {
        forall i | 0 <= i < |picks|
          ensures picks[i] < n
        {
          assert picks[i] in picks;
        }
        probes, picks := probes + [ProbeOf(nodes, peers[n], now)], picks + [n];
      }
    }
  }

  // ---------------------------------------------------------------- the map

  datatype NetMap = NetMap(
    networkId: string, nodeId: string, approved: bool, rotationRequired: bool,
    peers: seq<PeerInfo>, probes: seq<ProbeRequest>, revision: nat)

  ghost predicate PeersFor(s: State, node: Node, nodeId: string, now: int, peers: seq<PeerInfo>, order: seq<string>)
    requires node.networkId in s.networks
  {
    var network := s.networks[node.networkId];
    if EffectiveStatus(node, network.maxKeyAge, now).approved then
      && ListsPeers(network, s.nodes, order, peers)
      && OrderOfShown(network, s.nodes, nodeId, node, now, s.nodes.Keys, order)
    else
      peers == [] && order == []
  }

  /** The map that a state gives for a node at some time, up to the order of peers. */
  ghost predicate IsMap(s: State, nodeId: string, now: int, m: NetMap, order: seq<string>, picks: seq<nat>) {
    && nodeId in s.nodes && s.nodes[nodeId].networkId in s.networks
    && var node, network := s.nodes[nodeId], s.networks[s.nodes[nodeId].networkId];
       && m.networkId == network.id && m.nodeId == node.id && m.revision == s.revision
       && Status(m.approved, m.rotationRequired) == EffectiveStatus(node, network.maxKeyAge, now)
       && PeersFor(s, node, nodeId, now, m.peers, order)
       && ListsProbes(s.nodes, m.peers, now, picks, m.probes) && PicksProbing(s.nodes, m.peers, now, picks, |m.peers|)
  }

  /** `build_netmap`. */
  method BuildNetmap(s: State, nodeId: string, now: int)
    returns (r: Result<NetMap, ApiError>, ghost order: seq<string>, ghost picks: seq<nat>)
    ensures nodeId !in s.nodes ==> r == Err(NotFound(NoNode))
    ensures nodeId in s.nodes && s.nodes[nodeId].networkId !in s.networks ==> r == Err(NotFound(NoNetwork))
    ensures nodeId in s.nodes && s.nodes[nodeId].networkId in s.networks ==>
              r.Ok? && IsMap(s, nodeId, now, r.value, order, picks)
  {
    order, picks := [], [];
    if nodeId !in s.nodes {
      return Err(NotFound(NoNode)), order, picks;
    }
    var node := s.nodes[nodeId];
    if node.networkId !in s.networks {
      return Err(NotFound(NoNetwork)), order, picks;
    }
    var network := s.networks[node.networkId];
    var status := EffectiveStatus(node, network.maxKeyAge, now);
    var peers := [];
    if status.approved {
      peers, order := CollectPeers(network, s.nodes, nodeId, node, now);
    }
    var probes;
    probes, picks := CollectProbeRequests(s.nodes, peers, now);
    r := Ok(NetMap(network.id, node.id, status.approved, status.rotationRequired, peers, probes, s.revision));
  }

  // ---------------------------------------------------------------- exactness

  /** `k` is a peer of `viewer`: another effectively approved node of its network that its rules permit. */
  ghost predicate IsPeer(s: State, viewer: string, k: string, now: int) {
    && viewer in s.nodes && k in s.nodes && s.nodes[viewer].networkId in s.networks
    && k != viewer && s.nodes[k].networkId == s.nodes[viewer].networkId
    && var network := s.networks[s.nodes[viewer].networkId];
       && EffectiveStatus(s.nodes[viewer], network.maxKeyAge, now).approved
       && EffectiveStatus(s.nodes[k], network.maxKeyAge, now).approved
       && Permits(network.acl, s.nodes[viewer], s.nodes[k])
  }

  lemma OrderIsPeers(s: State, nodeId: string, now: int, m: NetMap, order: seq<string>, picks: seq<nat>, k: string)
    requires NetworksKeyed(s.networks) && NodesKeyed(s.nodes) && IsMap(s, nodeId, now, m, order, picks)
    ensures k in order <==> IsPeer(s, nodeId, k, now)
  {
  }

  /** In a safe state every peer is in the map exactly once, with its own data, and nobody else is. */
  lemma NetmapExact(s: State, nodeId: string, now: int, m: NetMap, order: seq<string>, picks: seq<nat>)
    requires Safe(s) && IsMap(s, nodeId, now, m, order, picks)
    ensures forall p <- m.peers ::
              && IsPeer(s, nodeId, p.id, now)
              && p == PeerOf(s.nodes[p.id], s.networks[s.nodes[nodeId].networkId].dnsDomain)
    ensures forall k | IsPeer(s, nodeId, k, now) :: exists i :: 0 <= i < |m.peers| && m.peers[i].id == k
    ensures forall i, j | 0 <= i < j < |m.peers| :: m.peers[i].id != m.peers[j].id
  {
    PeersAreOrder(s, nodeId, now, m, order, picks);
    forall i | 0 <= i < |m.peers|
      ensures IsPeer(s, nodeId, m.peers[i].id, now)
      ensures m.peers[i] == PeerOf(s.nodes[m.peers[i].id], s.networks[s.nodes[nodeId].networkId].dnsDomain)
    {
      assert order[i] in order;
      OrderIsPeers(s, nodeId, now, m, order, picks, order[i]);
    }
    forall k | IsPeer(s, nodeId, k, now)
      ensures exists i :: 0 <= i < |m.peers| && m.peers[i].id == k
    {
      OrderIsPeers(s, nodeId, now, m, order, picks, k);
      var i :| 0 <= i < |order| && order[i] == k;
      assert m.peers[i].id == k;
    }
  }

  lemma PeersAreOrder(s: State, nodeId: string, now: int, m: NetMap, order: seq<string>, picks: seq<nat>)
    requires NodesKeyed(s.nodes) && IsMap(s, nodeId, now, m, order, picks)
    ensures |m.peers| == |order|
    ensures forall i | 0 <= i < |order| ::
              order[i] in s.nodes && m.peers[i].id == order[i]
              && m.peers[i] == PeerOf(s.nodes[order[i]], s.networks[s.nodes[nodeId].networkId].dnsDomain)
    ensures forall i, j | 0 <= i < j < |order| :: order[i] != order[j]
  {
  }

  /** Probes are asked of exactly the peers that requested one lately. */
  lemma ProbesExact(s: State, nodeId: string, now: int, m: NetMap, order: seq<string>, picks: seq<nat>, k: string)
    requires Safe(s) && IsMap(s, nodeId, now, m, order, picks)
    ensures (exists i :: 0 <= i < |m.probes| && m.probes[i].peerId == k)
       <==> IsPeer(s, nodeId, k, now) && Probing(s.nodes, k, now)
  {
    NetmapExact(s, nodeId, now, m, order, picks);
    if i :| 0 <= i < |m.probes| && m.probes[i].peerId == k {
      assert m.peers[picks[i]] in m.peers;
    }
    if IsPeer(s, nodeId, k, now) && Probing(s.nodes, k, now) {
      var i: nat :| i < |m.peers| && m.peers[i].id == k;
      assert i in picks;
      var j :| 0 <= j < |picks| && picks[j] == i;
      assert m.probes[j].peerId == k;
    }
  }

  /** In every state of every run a stored node's network is found, so its map is built. */
  lemma RunMapExists(b: Backend, states: seq<State>, actions: seq<Action>, n: nat, nodeId: string)
    requires Run(b, states, actions) && n <= |actions| && nodeId in states[n].nodes
    ensures states[n].nodes[nodeId].networkId in states[n].networks
  {
    RunSafe(b, states, actions, n);
    assert Housed(states[n].networks, states[n].nodes[nodeId]);
  }

  /** The peer's addresses are its own and lie in the network's overlays. */
  predicate PeerPlaced(network: Network, node: Node, p: PeerInfo) {
    && p.ipv4 != node.ipv4 && p.ipv6 != node.ipv6
    && Contains(network.overlay4, 32, p.ipv4) && Contains(network.overlay6, 128, p.ipv6)
  }

  predicate AddressesDiffer(p: PeerInfo, q: PeerInfo) {
    p.ipv4 != q.ipv4 && p.ipv6 != q.ipv6
  }

  /** In every state of every run the peers of a map have addresses of their own, in its overlays. */
  lemma RunPeers(b: Backend, states: seq<State>, actions: seq<Action>, n: nat, nodeId: string, now: int,
                 m: NetMap, order: seq<string>, picks: seq<nat>)
    requires Run(b, states, actions) && n <= |actions| && IsMap(states[n], nodeId, now, m, order, picks)
    ensures forall i, j | 0 <= i < j < |m.peers| :: AddressesDiffer(m.peers[i], m.peers[j])
    ensures forall p <- m.peers ::
              PeerPlaced(states[n].networks[states[n].nodes[nodeId].networkId], states[n].nodes[nodeId], p)
  {
    RunSafe(b, states, actions, n);
    PeersApart(states[n], nodeId, now, m, order, picks);
  }

  lemma PeersApart(s: State, nodeId: string, now: int, m: NetMap, order: seq<string>, picks: seq<nat>)
    requires Safe(s) && IsMap(s, nodeId, now, m, order, picks)
    ensures forall i, j | 0 <= i < j < |m.peers| :: AddressesDiffer(m.peers[i], m.peers[j])
    ensures forall p <- m.peers :: PeerPlaced(s.networks[s.nodes[nodeId].networkId], s.nodes[nodeId], p)
  {
    NetmapExact(s, nodeId, now, m, order, picks);
    forall i, j | 0 <= i < j < |m.peers|
      ensures AddressesDiffer(m.peers[i], m.peers[j])
    {
      assert m.peers[i] in m.peers && m.peers[j] in m.peers;
      SafeMeansUnique(s, m.peers[i].id, m.peers[j].id);
    }
    forall p <- m.peers
      ensures PeerPlaced(s.networks[s.nodes[nodeId].networkId], s.nodes[nodeId], p)
    {
      SafeMeansUnique(s, p.id, nodeId);
      InOverlay(s, p.id);
    }
  }

  // ---------------------------------------------------------------- long polls

  /** One read of the loop: the state it finds, the wall clock, and the timer after it, in nanoseconds. */
  datatype Read = Read(state: State, now: int, instant: int)

  /** What a poll asks: for whom, with which credentials, and the query parameters. */
  datatype Ask = Ask(
    nodeId: string, bearer: Option<string>, admin: Option<string>,
    since: Option<nat>, timeoutSeconds: Option<nat>, start: int)

  const SECOND: int := 1_000_000_000

  function Since(ask: Ask): (r: nat) {
    if ask.since.Some? then ask.since.value else 0
  }

  /** Half a minute unless asked otherwise, and no more than five. */
  function Deadline(ask: Ask): (t: int) {
    var seconds := if ask.timeoutSeconds.Some? then ask.timeoutSeconds.value else 30;
    ask.start + (if seconds < 300 then seconds else 300) * SECOND
  }

  /** The node may read its map. */
  predicate MayRead(s: State, ask: Ask) {
    && ask.nodeId in s.nodes && Authorized(s.nodes[ask.nodeId], ask.bearer, ask.admin)
    && s.nodes[ask.nodeId].networkId in s.networks
  }

  /** The read ends the poll: an error, news, or the deadline. */
  predicate Settles(read: Read, ask: Ask) {
    !MayRead(read.state, ask) || read.state.revision > Since(ask) || read.instant >= Deadline(ask)
  }

  /** The poll is answered at the first read that ends it. */
  ghost predicate SettlesAt(found: seq<Read>, ask: Ask, at: nat) {
    && at < |found| && Settles(found[at], ask)
    && forall i | 0 <= i < at :: !Settles(found[i], ask)
  }

  /** The answer to a read: an error or the map of the state that it found. */
  ghost predicate Answers(read: Read, ask: Ask, r: Result<NetMap, ApiError>, order: seq<string>, picks: seq<nat>) {
    var s := read.state;
    if ask.nodeId !in s.nodes then r == Err(NotFound(NoNode))
    else if !Authorized(s.nodes[ask.nodeId], ask.bearer, ask.admin) then r == Err(Unauthorized(NodeTokenRequired))
    else if s.nodes[ask.nodeId].networkId !in s.networks then r == Err(NotFound(NoNetwork))
    else r.Ok? && IsMap(s, ask.nodeId, read.now, r.value, order, picks)
  }

  /** `netmap_longpoll` on what successive reads would find; None while it is still waiting. */
  method Longpoll(found: seq<Read>, ask: Ask)
    returns (r: Option<Result<NetMap, ApiError>>, ghost at: nat, ghost order: seq<string>, ghost picks: seq<nat>)
    ensures r == None ==> forall i | 0 <= i < |found| :: !Settles(found[i], ask)
    ensures r.Some? ==> SettlesAt(found, ask, at) && Answers(found[at], ask, r.value, order, picks)
  {
    at, order, picks := 0, [], [];
    for i := 0 to |found|
      invariant at == i && forall j | 0 <= j < i :: !Settles(found[j], ask)
    {
      var s := found[i].state;
      if ask.nodeId !in s.nodes {
        r := Some(Err(NotFound(NoNode)));
        return;
      }
      if !Authorized(s.nodes[ask.nodeId], ask.bearer, ask.admin) {
        r := Some(Err(Unauthorized(NodeTokenRequired)));
        return;
      }
      var m;
      m, order, picks := BuildNetmap(s, ask.nodeId, found[i].now);
      if m.Err? || s.revision > Since(ask) || found[i].instant >= Deadline(ask) {
        r := Some(m);
        return;
      }
      at := at + 1;
    }
    r := None;
  }

  /** The reads find states of the run, each no older than the one before. */
  ghost predicate ReadsOf(states: seq<State>, places: seq<nat>, found: seq<Read>) {
    && |places| == |found|
    && (forall i | 0 <= i < |places| :: places[i] < |states| && found[i].state == states[places[i]])
    && (forall i, j | 0 <= i < j < |places| :: places[i] <= places[j])
  }

  /**
   No update is missed: for a client whose map is from state `m`, a read finds a larger
   revision exactly if something was committed since.  A read that does not finds the very
   same state with the database; with the file store, exactly if no write since failed with
   a change.
   */
  lemma NoMissedUpdate(b: Backend, states: seq<State>, actions: seq<Action>, m: nat, place: nat)
    requires Run(b, states, actions) && m <= place <= |actions| && states[m].revision < MAX_REVISION
    ensures states[place].revision > states[m].revision <==> Commits(Outcomes(states, actions), m, place) > 0
    ensures states[place].revision <= states[m].revision ==>
              (states[place] == states[m] <==> b.Db? || !AnyDirty(Dirtiness(states, actions), m, place))
  {
    RevisionOrder(b, states, actions, m, place);
    if states[place].revision <= states[m].revision {
      if b.Db? {
        RevisionIdentifiesState(states, actions, m, place);
      } else {
        FileRevisionIdentifiesIff(states, actions, m, place);
      }
    }
  }

  // ---------------------------------------------------------------- clients

  /** A poll that was answered with a map. */
  datatype Poll = Poll(
    ask: Ask, places: seq<nat>, found: seq<Read>, at: nat, answer: NetMap, order: seq<string>, picks: seq<nat>)

  ghost predicate Answered(states: seq<State>, p: Poll) {
    && ReadsOf(states, p.places, p.found) && SettlesAt(p.found, p.ask, p.at)
    && Answers(p.found[p.at], p.ask, Ok(p.answer), p.order, p.picks)
  }

  ghost predicate AsksForNewer(polls: seq<Poll>, j: nat)
    requires j < |polls|
  {
    polls[j].ask.since == if j == 0 then None else Some(polls[j - 1].answer.revision)
  }

  /**
   A client that asks for what is newer than its last map; its first poll names no revision.
   No read comes before an earlier one.
   */
  ghost predicate Client(states: seq<State>, polls: seq<Poll>) {
    && (forall j | 0 <= j < |polls| :: Answered(states, polls[j]))
    && (forall j | 0 <= j < |polls| :: AsksForNewer(polls, j))
    && (forall i, j | 0 <= i < j < |polls| :: polls[i].places[polls[i].at] <= polls[j].places[0])
  }

  /** How many maps the client has when read `i` of poll `j` is done. */
  function MapsBy(polls: seq<Poll>, j: nat, i: nat): (n: nat)
    requires j < |polls|
  {
    if i == polls[j].at then j + 1 else j
  }

  /** One of the first `n` maps is of that revision or later. */
  ghost predicate HasMap(polls: seq<Poll>, n: nat, revision: nat)
    requires n <= |polls|
  {
    exists k :: 0 <= k < n && polls[k].answer.revision >= revision
  }

  lemma ThisMap(polls: seq<Poll>, n: nat, k: nat, revision: nat)
    requires k < n <= |polls| && polls[k].answer.revision >= revision
    ensures HasMap(polls, n, revision)
  {
  }

  lemma AnswerRevision(states: seq<State>, p: Poll)
    requires Answered(states, p)
    ensures p.places[p.at] < |states| && p.answer.revision == states[p.places[p.at]].revision
  {
  }

  lemma UnsettledRevision(states: seq<State>, p: Poll, i: nat)
    requires Answered(states, p) && i < p.at
    ensures p.places[i] < |states| && states[p.places[i]].revision <= Since(p.ask)
  {
    assert !Settles(p.found[i], p.ask);
  }

  /**
   A client that always polls with its last map's revision is never behind: whenever one of
   its reads comes at or after a state of revision r, it has received a map of revision r or
   later, unless nothing was ever committed.
   */
  lemma ClientKeepsUp(b: Backend, states: seq<State>, actions: seq<Action>, polls: seq<Poll>, j: nat, i: nat, n: nat)
    requires Run(b, states, actions) && Client(states, polls) && j < |polls| && i <= polls[j].at
    requires n <= polls[j].places[i]
    ensures states[n].revision == 0 || HasMap(polls, MapsBy(polls, j, i), states[n].revision)
  {
    assert Answered(states, polls[j]) && AsksForNewer(polls, j);
    RevisionOrder(b, states, actions, n, polls[j].places[i]);
    ReadKeepsUp(states, polls, j, i, states[n].revision);
  }

  lemma ReadKeepsUp(states: seq<State>, polls: seq<Poll>, j: nat, i: nat, revision: nat)
    requires j < |polls| && Answered(states, polls[j]) && AsksForNewer(polls, j) && i <= polls[j].at
    requires revision <= states[polls[j].places[i]].revision
    ensures revision == 0 || HasMap(polls, MapsBy(polls, j, i), revision)
  {
    if i == polls[j].at {
      AnswerRevision(states, polls[j]);
      ThisMap(polls, j + 1, j, revision);
    } else {
      UnsettledRevision(states, polls[j], i);
      if j > 0 {
        ThisMap(polls, j, j - 1, revision);
      }
    }
  }

  /** Nor is it behind while its next poll is waiting. */
  lemma WaitingKeepsUp(b: Backend, states: seq<State>, actions: seq<Action>, polls: seq<Poll>, ask: Ask, place: nat,
                       read: Read, n: nat)
    requires Run(b, states, actions) && Client(states, polls) && polls != []
    requires ask.since == Some(polls[|polls| - 1].answer.revision) && !Settles(read, ask)
    requires n <= place <= |actions| && read.state == states[place]
    ensures polls[|polls| - 1].answer.revision >= states[n].revision
  {
    RevisionOrder(b, states, actions, n, place);
  }

  /**
   The maps that a client receives never go back, and a poll that is answered before its
   deadline brings a newer one.
   */
  lemma ClientAdvances(b: Backend, states: seq<State>, actions: seq<Action>, polls: seq<Poll>, j: nat, k: nat)
    requires Run(b, states, actions) && Client(states, polls) && j < k < |polls|
    ensures polls[j].answer.revision <= polls[k].answer.revision
    ensures polls[k].found[polls[k].at].instant < Deadline(polls[k].ask) ==>
              polls[k - 1].answer.revision < polls[k].answer.revision
  {
    assert Answered(states, polls[j]) && Answered(states, polls[k]) && AsksForNewer(polls, k);
    AnswerRevision(states, polls[j]);
    AnswerRevision(states, polls[k]);
    PlacesGrow(states, polls, j, k);
    RevisionOrder(b, states, actions, polls[j].places[polls[j].at], polls[k].places[polls[k].at]);
  }

  lemma PlacesGrow(states: seq<State>, polls: seq<Poll>, j: nat, k: nat)
    requires Client(states, polls) && j < k < |polls|
    ensures polls[j].places[polls[j].at] <= polls[k].places[polls[k].at]
  {
    assert Answered(states, polls[j]) && Answered(states, polls[k]);
    assert polls[k].at > 0 ==> polls[k].places[0] <= polls[k].places[polls[k].at];
  }
}
