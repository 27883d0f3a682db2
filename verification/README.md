# Verification of the lightscale control server

A Dafny model of the server's logic and proofs of what it keeps over whole runs. It covers
the control plane (networks, nodes, enrolment tokens, key histories, revisions, under the
file and the database store), the overlay address allocator, the mesh relay that floods
packets between servers, the relay wire codec and its connection registry, and the views
derived from the state (network maps, DNS, DNS server lists).

`dafny verify dfyconfig.toml` checks everything.

## How the model is laid out

- **Mesh.** `SeenCache` and `Mesh` are the imperative classes of one server: the bounded
  cache of message ids, the route hints, the peer table, frame handling. `Flood` is the
  whole mesh as a state machine over any number of servers, with frames in flight and
  half-finished handlers; `handle_frame` awaits in the middle, so it is two steps there.
  `MeshRefinement` ties the classes to the machine. `FloodTermination`, `FloodCoverage`,
  `FloodTightness` and `FloodSuppression` prove that flooding ends, when it reaches everyone,
  that the bound is the best possible, and that being within the hop budget is not enough.
- **Control plane.** `Model` has the records, `Overlay` the allocator, `Handlers` each
  handler's effect as a function that may fail after changing something. `ControlState` has
  the handlers as methods of a class that updates its maps in place, proved equal to those
  functions, and the two stores. `Addresses` and `Runs` prove address safety, `NodeRuns`
  reduces a run to what happens to its nodes, and `Tokens`, `KeyHistory`, `Approval`,
  `Names`, `StoreRefinement` and `Revision` prove the other run properties. `Scripts` builds
  runs from lists of actions, and `NameClash` uses it for a run that breaks a plain claim.
- **Views.** `Netmap`, `Dns` with `DnsNames` and `DnsCollisions`, and `HostPort`.
- **Relay.** `RelayCodec`, `StreamRegistry` and `MeshDelivery`.

## What is assumed

- Runs start from the default state. Identifiers and secrets that handlers draw are new
  each time. Times are inputs, in any order, except for the id cache, whose clock is read
  under its lock and does not go back.
- Administrator checks have passed; a node's own bearer token is compared as in the source.
- Addresses are numbers and a CIDR is an address with a prefix length. Base64 decoding
  undoes encoding. The IP text parser is a parameter about which two laws are assumed.
- Error texts are named, not spelled out.
- `to_lowercase` is a parameter of which it is assumed, where that matters, that it is
  `to_ascii_lowercase` on ASCII text. Statements that need ASCII names say so.

## Where a plain claim is false

- **Names.** Rotating the keys of a revoked node revives it without looking at its name, so
  two unrevoked nodes can end up with one name (`NameClash.NamesCanClash`). Names are unique
  throughout a run if and only if no rotation revives a node whose name is taken
  (`Names.NamesUniqueIff`).
- **Failed writes.** With the file store a failed action can leave changes behind, under the
  old revision (`Revision.FileRevisionCanLie`). Which actions do so is decided exactly by the
  state before them (`StoreRefinement.FailsWithChangeIff`), and equal revisions mean equal
  states if and only if there was no such failure (`Revision.FileRevisionIdentifiesIff`).
- **Flooding.** A copy that arrives first over a long path suppresses a later copy with more
  hops left, so that a server can be missed although every server is within the hop budget of
  the origin (`FloodSuppression.DistanceIsNotEnough`, for every number of servers and every
  budget from 1 to `N - 3`). A budget of `N - 2` hops reaches all `N` servers
  (`FloodCoverage.FloodCovers`); for every smaller budget there is a mesh where it does not
  (`FloodTightness.BudgetIsTight`).
- **Key age.** A maximal key age above the largest i64 turns negative in the cast and finds
  every key too old that is not dated far enough after the present (`Netmap.WrappedPolicy`).
- **host:port.** Printing and splitting again gives back the host exactly if it is stable
  (`HostPort.HostPortRoundTrip`).
- **DNS.** Nodes resolve to their own addresses if and only if their full names are distinct
  (`Dns.ResolvesIffDistinct`), and nothing enforces that. Two networks may have one domain, so
  that one node name in both collides (`DnsCollisions.OneDomainCollides`); a dotted name may
  run into a domain within another (`DnsCollisions.NestedDomainCollides`); and two names of
  one network that differ ignoring ASCII case may be lower-cased to the same text
  (`DnsCollisions.FoldedNamesCollide`). `Dns.GoodDomains` rules these out.

## Model

| member | source | states |
|---|---|---|
| SeenCache.SeenIds.Remember | src/mesh.rs:507-531 | answers whether the id was not accepted within the last 120 s, records it then, and beyond 8192 ids drops the expired ones and, if need be, the oldest |
| SeenCache.DropOldest | src/mesh.rs:520-528 | keeps exactly `cap` entries, none older than one that was dropped |
| SeenCache.SortByStamp | src/mesh.rs:521-525 | lists every entry once, by age |
| SeenCache.RunBounded | src/mesh.rs:507-531 | after every call of every sequence of calls the cache holds at most 8192 ids |
| SeenCache.SeenCacheRefinesLog | src/mesh.rs:507-531 | for every sequence of calls with nondecreasing times the cache answers like an unbounded log that refuses ids accepted less than 120 s ago, and agrees with that log throughout if and only if no 120 s window accepts more than 8192 ids |
| Mesh.RouteHints.Learn | src/mesh.rs:464-491 | the hint table after learning a route: the new hint in; beyond 16384 hints the expired ones gone and, if need be, the oldest; nothing on empty ids |
| Mesh.RouteHints.Lookup | src/mesh.rs:493-505 | the next hop if the hint is young; an expired one is removed |
| Mesh.HintsAreLastLearned | src/mesh.rs:464-505 | over every sequence of calls, with times in any order, each stored hint is the last one learned for its node |
| Mesh.LookupAnswersLastLearned | src/mesh.rs:493-505 | an answered lookup gives the peer last learned, no more than 300 s before |
| Mesh.ValidatePeer | src/mesh.rs:328-351 | a peer is accepted if and only if it has a non-empty id other than the server's own, is allowed, and is the expected one |
| Mesh.MeshContext.AddConnection | src/mesh.rs:277-290 | only a valid peer is entered into the table, and the table's keys stay within the allowlist |
| Mesh.MeshContext.RemoveConnection | src/mesh.rs:314-324 | a connection is removed only if it is still the listed one of its peer |
| Mesh.MeshContext.Broadcast | src/mesh.rs:423-437 | each connected peer but the excluded one is sent to exactly once |
| Mesh.MeshContext.ForwardToTarget | src/mesh.rs:439-462 | the hinted peer alone if it is connected and not the source, else a broadcast |
| Mesh.MeshContext.Originate | src/mesh.rs:159-172 | a local packet is remembered and sent out with the full hop budget |
| Mesh.MeshContext.HandleFrame | src/mesh.rs:353-394 | new frames are remembered, teach the route back, are offered locally, and are forwarded with one hop less unless delivered or out of hops; known ones change nothing else |
| MeshRefinement.HandlingRefinesReceive | src/mesh.rs:364-367 | remembering and learning a received frame is a `Receive` step of the mesh machine, up to forgetting |
| MeshRefinement.OriginatingRefinesOriginate | src/mesh.rs:159-167 | remembering an own message is an `Originate` step, up to forgetting |
| MeshRefinement.ForwardingRefinesFinish | src/mesh.rs:382-391 | forwarding is an enabled `Finish` step whose new links are exactly the frames sent |
| MeshRefinement.LookupRefinesHint | src/mesh.rs:493-505 | a lookup answers as some hint choice of the mesh machine does |
| MeshRefinement.TimeLessens | src/mesh.rs:507-519 | the passage of time only forgets ids |
| MeshRefinement.LessenedIsForgetting | src/mesh.rs:464-531 | whatever a server forgets by expiry and eviction is a sequence of `Forget` and `DropHint` steps |
| Flood.NextStable | src/mesh.rs:112-172 | no step changes the configuration or a message's origin |
| Flood.NextSound | src/mesh.rs:353-462 | every step keeps frame integrity |
| Flood.RunSound | src/mesh.rs:159-172 | in every state of every run each copy carries its origin's transport, ids and payload, has used one hop per link, goes to an allowed peer, and never back to the peer it came from |
| Flood.OffersMatchOrigins | src/mesh.rs:353-394 | whatever is offered to the local relay was originated as such, and a server offers it at most once more often than it forgot the id |
| FloodTermination.HandlingDecreases | src/mesh.rs:379-390 | handling a frame strictly decreases a measure weighted by the hops left, whatever ids are forgotten and whatever hints say |
| FloodTermination.HandlingBounded | src/mesh.rs:353-451 | the number of handling steps of a run is bounded by its originations |
| FloodTermination.TransmissionsBounded | src/mesh.rs:423-451 | one local packet causes at most P + P^2 + ... + P^(max_hops+1) transmissions when every server has at most P allowed peers |
| FloodCoverage.NextSpreads | src/mesh.rs:353-451 | every quiet step keeps that each neighbour of a holder is served, about to be served, or out of reach |
| FloodCoverage.FloodCovers | src/mesh.rs:353-394 | on a static connected mesh of N servers with max_hops at least N-2 and nothing lost or forgotten, once no frame is left some server reported delivery or every server has the message, for every interleaving |
| FloodTightness.BeyondBudget | src/mesh.rs:364-390 | a server farther away than the hop budget never gets the message |
| FloodTightness.Drain | src/mesh.rs:353-394 | every quiet run can be continued until no frame is left |
| FloodTightness.BudgetIsTight | src/mesh.rs:364-390 | for every N and every budget below N-2 there is a run on N servers, without loss, that ends with a server not reached and nothing delivered |
| FloodSuppression.CutStays | src/mesh.rs:364-381 | a server whose only neighbour took the message with no hop left never gets it |
| FloodSuppression.LongWayStarves | src/mesh.rs:364-366 | on any mesh with a path of max_hops+1 links to the only neighbour of a server there is a run without loss that leaves that server without the message, however close it is by other ways |
| FloodSuppression.DistanceIsNotEnough | src/mesh.rs:364-366 | for every N and every budget from 1 to N-3 there is a mesh of N servers, all within max_hops+1 links of the origin, and such a run |
| RelayCodec.ParsesIffBuilt | src/stream_relay.rs:216-264 | a buffer parses as a Send if and only if it is the layout of one, with the right magic, two UTF-8 ids of 1 to 64 bytes and any reserved byte |
| RelayCodec.BuildPacket | src/stream_relay.rs:266-280 | builds the packet exactly if both ids are at most 64 bytes |
| RelayCodec.ParseBuilt | src/udp_relay.rs:167-231 | parsing a built Send gives back ids and payload, for both relays |
| RelayCodec.BuildParsed | src/stream_relay.rs:216-280 | building from a parsed Send gives back the bytes, except the reserved byte |
| RelayCodec.RelaysAreSeparate | src/udp_relay.rs:11-11 | no packet parses under both magics |
| RelayCodec.DeliverFits | src/stream_relay.rs:184-184 | the Deliver made from an accepted Send always fits the frame limit |
| RelayCodec.FramesRoundTrip | src/stream_relay.rs:194-214 | any sequence of written frames is read back as the same sequence, whatever follows |
| RelayCodec.WriteRead | src/stream_relay.rs:194-214 | what is read was written so |
| MeshDelivery.DeliverFitsAfterMesh | src/stream_relay.rs:156-184 | that still holds for a packet that crossed the mesh, on every run |
| StreamRegistry.Registry.Register | src/stream_relay.rs:96-102 | the connection is appended to its node's list |
| StreamRegistry.Registry.Unregister | src/stream_relay.rs:143-151 | the connection is removed and an empty list with it |
| StreamRegistry.Registry.DeliverLocal | src/stream_relay.rs:174-192 | the Deliver is sent to every open connection of the target, in order and once, and the answer says whether there was one |
| StreamRegistry.RegistryMatchesConnections | src/stream_relay.rs:71-154 | over all interleavings no list is empty, connection ids are distinct, and the lists are exactly the live connections; delivery never fails on a parsed Send |
| StreamRegistry.ForwardedAsRegistered | src/stream_relay.rs:104-141 | every packet forwarded from a connection carries the id it registered |
| StreamRegistry.ListedExactlyWhileLive | src/stream_relay.rs:71-154 | a connection is listed for a node exactly between its registration and its cleanup |
| Overlay.OverlapIffShared | src/api.rs:1583-1589 | the overlap test holds if and only if some address is in both subnets |
| Overlay.BlockFits | src/api.rs:1583-1589 | a subnet does not reach past its address space |
| Overlay.Ipv4Bounds | src/api.rs:1591-1611 | there are usable offsets exactly up to prefix length 30, strictly between network and broadcast address |
| Overlay.Ipv6Bounds | src/api.rs:1613-1633 | the largest IPv6 offset is the last address of the subnet, also for /0 and /128 |
| Overlay.AllocateSafe | src/api.rs:1635-1661 | no sum or cursor increment leaves u32 or u128 for any prefix length; allocation succeeds exactly while both cursors are in range and gives addresses inside the subnets |
| Overlay.GrantsThenRefuses | src/api.rs:1635-1661 | a network grants exactly the smaller of its two capacities, one pair after the other, and then refuses forever, with which error |
| ControlState.RevokeKeyRecord | src/api.rs:1446-1457 | in place, every record of that type and key becomes revoked and nothing else changes |
| ControlState.Deduplicate | src/api.rs:1663-1677 | first occurrences in order |
| ControlState.CleanUpTags | src/api.rs:767-778 | trimmed, non-empty, first occurrences in order |
| ControlState.ControlState.AnyOverlap | src/api.rs:230-245 | whether some stored network shares an address with the new one, and in which address family |
| ControlState.ControlState.NameInUse | src/api.rs:1494-1516 | whether some other unrevoked node of the network has the name, ignoring case |
| ControlState.ControlState.CreateNetwork | src/api.rs:224-270 | the state and answer of `Handlers.DoCreateNetwork`, also when the bootstrap token is refused after the network was stored; an overlap error names a family in which there is one |
| ControlState.ControlState.CreateToken | src/api.rs:288-321 | a token with that many uses and that expiry is stored for an existing network, unless ttl or uses is zero |
| ControlState.ControlState.RevokeToken | src/api.rs:362-380 | a stored token is marked revoked and otherwise kept |
| ControlState.ControlState.AllocateNodeIps | src/api.rs:1635-1661 | the network and answer of `Overlay.Allocate`, also when only the IPv4 cursor moved |
| ControlState.ControlState.Register | src/api.rs:392-490 | the state and answer of `Handlers.DoRegister` |
| ControlState.ControlState.RegisterUrl | src/api.rs:507-583 | the state and answer of `Handlers.DoRegisterUrl` |
| ControlState.ControlState.ApproveBySecret | src/api.rs:600-639 | an approved node is left alone; else it is approved and loses its secret exactly if the secret is its own and in time |
| ControlState.ControlState.ApproveByAdmin | src/api.rs:656-684 | an approved node is left alone; else it is approved and loses its secret |
| ControlState.ControlState.UpdateNode | src/api.rs:736-812 | the state and answer of `Handlers.DoUpdateNode` |
| ControlState.ControlState.UpdateAcl | src/api.rs:846-872 | the rules of an existing network are replaced and nothing else |
| ControlState.ControlState.UpdateKeyPolicy | src/api.rs:896-924 | the key policy of an existing network is replaced and nothing else |
| ControlState.ControlState.RotateKeys | src/api.rs:927-1000 | the state and answer of `Handlers.DoRotateKeys`, also when the second key is refused after the first was replaced |
| ControlState.ControlState.RevokeNode | src/api.rs:1010-1046 | the state and answer of `Handlers.DoRevokeNode` |
| ControlState.ControlState.DeleteNode | src/api.rs:1056-1084 | the node is removed and nothing else |
| ControlState.ControlState.DeleteNetwork | src/api.rs:1087-1130 | the state and answer of `Handlers.DoDeleteNetwork` |
| ControlState.ControlState.Heartbeat | src/api.rs:1212-1250 | the state and answer of `Handlers.DoHeartbeat` |
| ControlState.FileStore.WriteAction | src/state.rs:105-113 | a failed write keeps what it changed, a successful one raises the revision |
| ControlState.DbStore.WriteAction | src/state.rs:185-202 | a failed write changes nothing, a successful one raises the revision |
| Addresses.HandleSafe | src/api.rs:170-1250 | every handler, failing or not, keeps map keys equal to ids, references resolved, overlays disjoint, and every node housed in its own part of its overlay |
| Addresses.SafeMeansUnique | src/api.rs:1635-1661 | in such a state no two nodes of any networks share an address |
| Runs.DrawsAreUnused | src/api.rs:170-600 | ids and secrets drawn by an action of a run are not in use when it runs |
| Runs.RunSafe | src/api.rs:170-1250 | every state of every run under either store is safe |
| Runs.AddressesUnique | src/api.rs:1583-1661 | in every state of every run no two nodes share an IPv4 or IPv6 address, each address lies in its own network's overlay, each IPv4 strictly between network and broadcast address |
| Runs.OffsetsNeverReissued | src/api.rs:1103-1123 | of two registrations in one network the later one gets larger addresses of both kinds, whatever was deleted or failed in between |
| NodeRuns.WriteNodes | src/api.rs:387-1250 | what an action does to the stored nodes in every outcome under either store |
| Tokens.HandleTokens | src/api.rs:281-490 | a successful registration spends one use and removes the token with the last; every other action keeps tokens but for a revocation mark, and adds only one that it draws |
| Tokens.TokenConserved | src/api.rs:480-487 | while a token is stored, registrations with it and uses left add up to its initial uses, and at least one is left; the total never exceeds them |
| Tokens.RevokedAdmitsNobody | src/api.rs:356-414 | once a token was revoked no registration with it succeeds |
| Tokens.EnrollmentTokens | src/api.rs:399-487 | both facts for all runs, and no registration succeeds at or past the expiry fixed at issue |
| KeyHistory.RotateRenews | src/api.rs:953-985 | after a rotation the new key is the only unrevoked record of its type |
| KeyHistory.ClockIsLastEvent | src/api.rs:1432-1444 | `current_key_created_at` is the time of the last registration or rotation of that type, or None if the node was revoked after it |
| KeyHistory.HistoryExtends | src/api.rs:1446-1457 | between two times at which a node exists, records are never removed or un-revoked and keep their type, key and creation date; a second revocation may re-date the first |
| KeyHistory.KeyHistories | src/api.rs:949-1036 | in every state of every run at most the newest record of each type is unrevoked and it holds the current key, and its age is that of the last renewal |
| Approval.StepStanding | src/api.rs:604-681 | only an approval request that the node admits changes its standing, and only while it is not approved |
| Approval.ApprovalLifeCycle | src/api.rs:596-691 | in every state of every run a node is approved exactly if its network admitted it at once, the administrator approved it, or its own secret was presented in time; before that it has exactly the secret and expiry of its registration, afterwards none |
| Approval.ApprovalStays | src/api.rs:604-681 | approval is never taken back or re-dated |
| Names.StepUnique | src/api.rs:1494-1516 | a step keeps names unique if and only if it does not revive a node whose name is taken |
| Names.NamesUniqueIff | src/api.rs:949-989 | the same for whole runs, with the guards of a successful rotation as the condition, and all names are non-empty and trimmed throughout |
| NameClash.NamesCanClash | src/api.rs:927-1000 | whoever takes part, a run of five actions after which two unrevoked nodes of a network have one name |
| StoreRefinement.FailsWithChangeIff | src/api.rs:246-263 | an action fails after changing something if and only if it is a network with an unusable bootstrap token, a registration where only IPv4 addresses are left, or a rotation whose second key is unchanged |
| StoreRefinement.LateErrorsUnreachable | src/api.rs:785-801 | the lookups of a node's or token's network never fail |
| StoreRefinement.StoresAgreeIff | src/state.rs:100-116 | the same actions give the same states on both stores if and only if none of them fails with a change |
| StoreRefinement.DatabaseIsCommitted | src/state.rs:185-202 | the database holds what either store would after the successful actions alone |
| Revision.RevisionCountsCommits | src/state.rs:105-112 | under either store the revision is the number of successful writes, up to the largest u64 |
| Revision.RevisionOrder | src/state.rs:105-112 | revisions never go back, and below the largest one stand still exactly if nothing was committed |
| Revision.RevisionIdentifiesState | src/state.rs:185-202 | with the database equal revisions below the largest one mean equal states |
| Revision.FileRevisionIdentifiesIff | src/state.rs:105-112 | with the file store they do if and only if no write in between failed with a change |
| Revision.FileRevisionCanLie | src/api.rs:246-263 | a run of one failed action with equal revisions and different states |
| Netmap.AclAllows | src/api.rs:1459-1466 | the first matching rule decides, or else the default |
| Netmap.AppendedRule | src/api.rs:1459-1484 | a further rule counts only for pairs that no earlier rule matches |
| Netmap.RotationDemandedIff | src/api.rs:1408-1430 | on every run, for every u64 policy and every clock, a rotation is demanded exactly if a key was last renewed longer ago than the limit that the cast leaves and the node was not revoked since |
| Netmap.WrappedPolicy | src/api.rs:1415-1415 | under an age above the largest i64 a key is too old exactly unless it is dated that much after the present |
| Netmap.CollectPeers | src/api.rs:1385-1406 | for any order of iteration, each eligible node once and nobody else |
| Netmap.CollectProbeRequests | src/api.rs:1364-1382 | in the order of the peers, exactly those that asked for a probe within 30 s |
| Netmap.BuildNetmap | src/api.rs:1317-1360 | the errors, and a map of one state with its revision |
| Netmap.NetmapExact | src/api.rs:1317-1484 | in a safe state each other effectively approved and permitted node of the network is listed exactly once with its own data; nobody if the node itself is not effectively approved |
| Netmap.ProbesExact | src/api.rs:1364-1382 | probes are asked of exactly those peers that requested one lately |
| Netmap.RunMapExists | src/api.rs:1322-1326 | on every run the network of a stored node is found, so that its map is built |
| Netmap.RunPeers | src/api.rs:1317-1360 | on every run the peers of a map have different addresses, none of them the node's own, all in its network's two overlays |
| Netmap.Longpoll | src/api.rs:1282-1314 | answers at the first read that finds an error, a larger revision than asked for or the deadline (30 s by default, at most 300 s), with the error or the map of that one state |
| Netmap.NoMissedUpdate | src/api.rs:1294-1314 | a read finds a larger revision exactly if something was committed since the client's map; one that does not finds the same state with the database, and with the file store exactly if no write since failed with a change |
| Netmap.ClientKeepsUp | src/api.rs:1282-1314 | a client that always polls with its last map's revision has, whenever it reads at or after a state of revision r, received a map of revision r or later, unless nothing was committed |
| Netmap.WaitingKeepsUp | src/api.rs:1305-1313 | the same while its next poll is still waiting |
| Netmap.ClientAdvances | src/api.rs:1305-1309 | the maps that such a client receives never go back, and a poll answered before its deadline brings a newer one |
| DnsNames.FullName | src/dns.rs:132-134 | before lower-casing, normalising a full name keeps the node's name and the domain's tail |
| DnsNames.WithinIff | src/dns.rs:118-134 | a full name lies within its own domain, as it is listed, exactly if that does not start with whitespace |
| Dns.IsWithinDomains | src/dns.rs:118-122 | the name is one of the domains or below one |
| Dns.Snapshot | src/dns.rs:41-70 | for any order of iteration and any normalisation, the domains of all networks and a record for each approved unrevoked node's full name |
| Dns.ResolvesIffDistinct | src/dns.rs:41-70 | every such node resolves to exactly its own two addresses if and only if the full names are distinct |
| Dns.RecordsUnique | src/dns.rs:41-70 | then the records do not depend on the order of iteration |
| Dns.DistinctUnderGoodDomains | src/dns.rs:41-70 | unique node names give distinct full names when names and domains are ASCII and the domains are non-empty and separate, or different with dotless names |
| Dns.RunResolves | src/dns.rs:41-70 | on every run without a clashing revival, every state with such domains resolves exactly |
| Dns.BuildResponse | src/dns.rs:72-116 | the answers of all queries in order; NoError exactly if there are any, NXDomain exactly if there are none and some name is within the domains |
| Dns.AnswersExact | src/dns.rs:88-103 | a query for a served node gets exactly its address of the asked kind |
| Dns.NoOtherAnswers | src/dns.rs:88-90 | a query for any other name gets none |
| Dns.ServedWithinIff | src/dns.rs:118-122 | a served name lies within its own domain exactly if that does not start with whitespace, and then a query for it is not refused |
| DnsCollisions.CollisionsHappen | src/api.rs:224-248 | for any two full names of different networks that normalise to the same there is a run after which one of the two nodes does not resolve |
| DnsCollisions.OneDomainCollides | src/api.rs:224-248 | for instance one node name in two networks with one domain |
| DnsCollisions.NestedDomainCollides | src/dns.rs:57-57 | for instance a dotted name that ends where a domain within another begins |
| DnsCollisions.FoldedNamesCollide | src/api.rs:1494-1516 | two names of one network that lower-casing merges are both accepted when they differ ignoring ASCII case, and one of them does not resolve |
| HostPort.HostPortRoundTrip | src/main.rs:419-469 | splitting a printed host and port gives them back if and only if the host is stable |
| HostPort.NormalizeDnsServerValues | src/main.rs:379-395 | an error exactly if some entry does not parse; else the strictly sorted list of the printed entries |
| HostPort.NormalizationUnique | src/main.rs:379-395 | that list is determined by the set of entries |
| HostPort.NormalizationIdempotent | src/main.rs:379-395 | normalising again changes nothing if and only if every bracketed host is stable |

## Left out

- UDP relay peer table and its expiry (src/udp_relay.rs:143-165): one insert and one retain, it would only add easy members.
- HTTP routing, header and JSON handling, TLS, sockets, timers and scheduling; channels appear as steps of state machines.
- SQL, files and the order in which snapshots reach the disk; persistence errors.
- Network id and prefix derivation, random secrets and identifiers: inputs of the actions.
- Owners, routes, display data, control URL inference, topology and listing endpoints, and the contents of the audit log, of which only the length is kept.
- DNS messages: queries and answers are values, records carry no time to live, and stored addresses always parse.
- Wrap-around of connection ids; ttl and expiry sums beyond i64.
- What `to_lowercase` does to text beyond ASCII.
- ControlState.FileStore.WriteAction: reports the two overlap errors of `create_network` as one, because which of them it is depends on the order of iteration; `ControlState.ControlState.CreateNetwork` reports them apart.
- ControlState.DbStore.WriteAction: likewise.
