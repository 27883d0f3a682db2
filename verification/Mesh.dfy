/**
 One server of the relay mesh: its peer table, its route hints and `handle_frame`.

 A frame handed to a peer's channel is reported as a send; whether it arrives is the
 network's business (see module Flood).  Local delivery answers through a oneshot with a
 250 ms timeout, so its outcome is an input.
 */
module Mesh {
  import opened Base
  import opened SeenCache

  const ROUTE_TTL: nat := 300_000_000_000
  const MAX_ROUTE_HINTS: nat := 16384

  datatype Transport = Stream | Udp

  datatype Packet = Packet(transport: Transport, fromId: Text, toId: Text, payload: seq<byte>)

  datatype Frame =
    | Hello(serverId: string)
    | Relay(id: string, packet: Packet, hopsLeft: nat)

  datatype Send = Send(peer: string, frame: Frame)

  // ---------------------------------------------------------------- route hints

  datatype RouteHint = RouteHint(peer: string, updatedAt: nat)

  function Stamps(hints: map<Text, RouteHint>): (m: map<Text, nat>) {
    map node | node in hints :: hints[node].updatedAt
  }

  function Restrict(hints: map<Text, RouteHint>, keys: set<Text>): (m: map<Text, RouteHint>) {
    map node | node in hints && node in keys :: hints[node]
  }

  function YoungHints(hints: map<Text, RouteHint>, now: nat): (m: map<Text, RouteHint>) {
    map node | node in hints && Age(now, hints[node].updatedAt) <= ROUTE_TTL :: hints[node]
  }

  ghost predicate Submap<K, V>(a: map<K, V>, b: map<K, V>) {
    forall k <- a :: k in b && a[k] == b[k]
  }

  /** One call of `learn_route`. */
  ghost predicate Learns(hints: map<Text, RouteHint>, node: Text, peer: string, now: nat,
                         hints': map<Text, RouteHint>) {
    if node == [] || peer == "" then hints' == hints else
    var added := hints[node := RouteHint(peer, now)];
    if |added.Keys| <= MAX_ROUTE_HINTS then hints' == added else
    var young := YoungHints(added, now);
    if |young.Keys| <= MAX_ROUTE_HINTS then hints' == young else
    Submap(hints', young) && OldestDropped(Stamps(young), Stamps(hints'), MAX_ROUTE_HINTS)
  }

  /** One call of `lookup_route`, which drops the entry it finds expired. */
  ghost predicate LooksUp(hints: map<Text, RouteHint>, node: Text, now: nat, hints': map<Text, RouteHint>,
                          hint: Option<string>) {
    if node !in hints then hints' == hints && hint == None
    else if Age(now, hints[node].updatedAt) <= ROUTE_TTL then hints' == hints && hint == Some(hints[node].peer)
    else hints' == hints - {node} && hint == None
  }

  class RouteHints {
    var hints: map<Text, RouteHint>

    constructor ()
      ensures hints == map[]
    {
      hints := map[];
    }

    method Learn(node: Text, peer: string, now: nat)
      modifies this
      ensures Learns(old(hints), node, peer, now, hints)
    {
      if node == [] || peer == "" {
        return;
      }
      hints := hints[node := RouteHint(peer, now)];
      if |hints.Keys| > MAX_ROUTE_HINTS {
        hints := YoungHints(hints, now);
        if |hints.Keys| > MAX_ROUTE_HINTS {
          assert Stamps(hints).Keys == hints.Keys;
          var kept := DropOldest(Stamps(hints), MAX_ROUTE_HINTS);
          ghost var young := hints;
          hints := Restrict(hints, kept.Keys);
          assert Stamps(hints) == kept;
          assert Submap(hints, young);
        }
      }
    }

    method Lookup(node: Text, now: nat) returns (hint: Option<string>)
      modifies this
      ensures LooksUp(old(hints), node, now, hints, hint)
    {
      if node !in hints {
        return None;
      }
      if Age(now, hints[node].updatedAt) <= ROUTE_TTL {
        return Some(hints[node].peer);
      }
      hints := hints - {node};
      return None;
    }
  }

  datatype RouteCall =
    | Learn(node: Text, peer: string, now: nat)
    | Lookup(node: Text, now: nat)

  ghost predicate RouteStep(hints: map<Text, RouteHint>, c: RouteCall, hints': map<Text, RouteHint>,
                            hint: Option<string>) {
    match c
    case Learn(node, peer, now) => Learns(hints, node, peer, now, hints') && hint == None
    case Lookup(node, now) => LooksUp(hints, node, now, hints', hint)
  }

  ghost predicate RouteRun(calls: seq<RouteCall>, tables: seq<map<Text, RouteHint>>, answers: seq<Option<string>>) {
    && |tables| == |calls| + 1
    && |answers| == |calls|
    && tables[0] == map[]
    && forall i | 0 <= i < |calls| :: RouteStep(tables[i], calls[i], tables[i + 1], answers[i])
  }

  /** The peer most recently learned for every node, with nothing ever forgotten. */
  function LastLearned(calls: seq<RouteCall>): (m: map<Text, RouteHint>) {
    if calls == [] then map[] else
    var before := LastLearned(calls[..|calls| - 1]);
    match calls[|calls| - 1]
    case Learn(node, peer, now) => if node == [] || peer == "" then before else before[node := RouteHint(peer, now)]
    case Lookup(_, _) => before
  }

  lemma {:induction false} HintsAreLastLearned(calls: seq<RouteCall>, tables: seq<map<Text, RouteHint>>,
                                               answers: seq<Option<string>>, n: nat)
    requires RouteRun(calls, tables, answers) && n <= |calls|
    ensures Submap(tables[n], LastLearned(calls[..n]))
    ensures |tables[n].Keys| <= MAX_ROUTE_HINTS
  {
    if n > 0 {
      HintsAreLastLearned(calls, tables, answers, n - 1);
      assert calls[..n][..n - 1] == calls[..n - 1];
      assert RouteStep(tables[n - 1], calls[n - 1], tables[n], answers[n - 1]);
      assert Stamps(tables[n]).Keys == tables[n].Keys;
    }
  }

  /** A stale next hop is never returned: an answer is the last peer learned, at most 300 s old. */
  lemma LookupAnswersLastLearned(calls: seq<RouteCall>, tables: seq<map<Text, RouteHint>>,
                                 answers: seq<Option<string>>, n: nat)
    requires RouteRun(calls, tables, answers) && n < |calls| && calls[n].Lookup? && answers[n].Some?
    ensures var last := LastLearned(calls[..n]);
            && calls[n].node in last
            && answers[n].value == last[calls[n].node].peer
            && Age(calls[n].now, last[calls[n].node].updatedAt) <= ROUTE_TTL
  {
    HintsAreLastLearned(calls, tables, answers, n);
    assert RouteStep(tables[n], calls[n], tables[n + 1], answers[n]);
  }

  // ---------------------------------------------------------------- peers

  /** The errors of `validate_peer`, by name. */
  datatype PeerError = EmptyId | OwnId | Mismatch | NoAllowlist | NotAllowed

  /** `validate_peer`. */
  function ValidatePeer(serverId: string, allowed: set<string>, expected: Option<string>,
                        peer: string): (r: Result<(), PeerError>)
    ensures r.Ok? <==>
              peer != "" && peer != serverId && peer in allowed && (expected.Some? ==> expected.value == peer)
  {
    if peer == "" then Err(EmptyId)
    else if peer == serverId then Err(OwnId)
    else if expected.Some? && expected.value != peer then Err(Mismatch)
    else if allowed == {} then Err(NoAllowlist)
    else if peer !in allowed then Err(NotAllowed)
    else Ok(())
  }

  /** Every peer except the excluded one, each once. */
  ghost predicate Broadcasts(peers: set<string>, exclude: Option<string>, targets: seq<string>) {
    && (forall i, j | 0 <= i < j < |targets| :: targets[i] != targets[j])
    && (forall p :: p in targets <==> p in peers && Some(p) != exclude)
  }

  /** The hinted peer alone, or else every peer except the excluded one. */
  ghost predicate Forwards(peers: set<string>, hint: Option<string>, exclude: Option<string>, targets: seq<string>) {
    || (hint.Some? && hint != exclude && hint.value in peers && targets == [hint.value])
    || Broadcasts(peers, exclude, targets)
  }

  function Addressed(targets: seq<string>, frame: Frame): (sends: seq<Send>) {
    seq(|targets|, i requires 0 <= i < |targets| => Send(targets[i], frame))
  }

  class MeshContext {
    const serverId: string
    const maxHops: nat
    const allowed: set<string>
    var peers: map<string, nat>
    const seenIds: SeenIds
    const routes: RouteHints

    ghost predicate Valid()
      reads this
    {
      peers.Keys <= allowed && serverId !in peers && "" !in peers
    }

    constructor (serverId: string, maxHops: nat, allowed: set<string>)
      ensures this.serverId == serverId && this.maxHops == maxHops && this.allowed == allowed
      ensures peers == map[] && seenIds.seen == map[] && routes.hints == map[]
      ensures fresh(seenIds) && fresh(routes)
      ensures Valid()
    {
      this.serverId := serverId;
      this.maxHops := maxHops;
      this.allowed := allowed;
      peers := map[];
      seenIds := new SeenIds();
      routes := new RouteHints();
    }

    /** The registration part of `run_connection`. */
    method AddConnection(expected: Option<string>, peer: string, connId: nat) returns (r: Result<(), PeerError>)
      requires Valid()
      modifies this
      ensures Valid()
      ensures r == ValidatePeer(serverId, allowed, expected, peer)
      ensures peers == if r.Ok? then old(peers)[peer := connId] else old(peers)
    {
      r := ValidatePeer(serverId, allowed, expected, peer);
      if r.Ok? {
        peers := peers[peer := connId];
      }
    }

    /** The clean-up part: a connection that was replaced leaves its successor alone. */
    method RemoveConnection(peer: string, connId: nat)
      requires Valid()
      modifies this
      ensures Valid()
      ensures forall p :: p in peers <==> p in old(peers) && !(p == peer && old(peers)[p] == connId)
      ensures forall p <- peers :: peers[p] == old(peers)[p]
    {
      if peer in peers && peers[peer] == connId {
        peers := peers - {peer};
      }
    }

    method Broadcast(exclude: Option<string>) returns (targets: seq<string>)
      ensures Broadcasts(peers.Keys, exclude, targets)
    {
      targets := [];
      var todo := peers.Keys;
      while todo != {}
        invariant todo <= peers.Keys
        invariant forall i, j | 0 <= i < j < |targets| :: targets[i] != targets[j]
        invariant forall p :: p in targets <==> p in peers && p !in todo && Some(p) != exclude
        decreases |todo|
      {
        var p :| p in todo;
        todo := todo - {p};
        if exclude != Some(p) {
          targets := targets + [p];
        }
      }
    }

    /** `forward_to_target`; `open` says whether the hinted peer's channel still accepts. */
    method ForwardToTarget(exclude: Option<string>, target: Text, frame: Frame, now: nat, open: bool)
      returns (sends: seq<Send>, ghost hint: Option<string>, ghost targets: seq<string>)
      modifies routes
      ensures LooksUp(old(routes.hints), target, now, routes.hints, hint)
      ensures Forwards(peers.Keys, hint, exclude, targets)
      ensures sends == Addressed(targets, frame)
    {
      var route := routes.Lookup(target, now);
      hint := route;
      if route.Some? && exclude != route && route.value in peers && open {
        targets := [route.value];
        return [Send(route.value, frame)], route, [route.value];
      }
      var all := Broadcast(exclude);
      targets := all;
      sends := seq(|all|, i requires 0 <= i < |all| => Send(all[i], frame));
    }

    /** The body of the origin loop of `start` for one local packet. */
    method Originate(id: string, packet: Packet, seenAt: nat, lookupAt: nat, open: bool)
      returns (sends: seq<Send>, ghost hint: Option<string>, ghost targets: seq<string>)
      modifies seenIds, routes
      ensures exists accepted :: Remembers(old(seenIds.seen), id, seenAt, seenIds.seen, accepted)
      ensures LooksUp(old(routes.hints), packet.toId, lookupAt, routes.hints, hint)
      ensures Forwards(peers.Keys, hint, None, targets)
      ensures sends == Addressed(targets, Relay(id, packet, maxHops))
    {
      var accepted := seenIds.Remember(id, seenAt);
      sends, hint, targets := ForwardToTarget(None, packet.toId, Relay(id, packet, maxHops), lookupAt, open);
    }

    /**
     `handle_frame`.  A repeated id changes nothing.  A new one is remembered, teaches the
     route back to its sender and is offered for local delivery; it is passed on with one
     hop less unless it was delivered or its budget is spent, never to where it came from.
     */
    method HandleFrame(source: string, frame: Frame, seenAt: nat, learnAt: nat, lookupAt: nat, delivered: bool,
                       open: bool)
      returns (offered: Option<Packet>, sends: seq<Send>, ghost learned: map<Text, RouteHint>,
               ghost hint: Option<string>, ghost targets: seq<string>)
      modifies seenIds, routes
      ensures frame.Hello? ==>
                offered == None && sends == [] && seenIds.seen == old(seenIds.seen) && routes.hints == old(routes.hints)
      ensures frame.Relay? ==>
                Remembers(old(seenIds.seen), frame.id, seenAt, seenIds.seen, offered.Some?)
      ensures frame.Relay? && offered == None ==>
                sends == [] && seenIds.seen == old(seenIds.seen) && routes.hints == old(routes.hints)
      ensures frame.Relay? && offered.Some? ==>
                && offered == Some(frame.packet)
                && Learns(old(routes.hints), frame.packet.fromId, source, learnAt, learned)
                && if delivered || frame.hopsLeft == 0 then sends == [] && routes.hints == learned else
                   && LooksUp(learned, frame.packet.toId, lookupAt, routes.hints, hint)
                   && Forwards(peers.Keys, hint, Some(source), targets)
                   && sends == Addressed(targets, Relay(frame.id, frame.packet, frame.hopsLeft - 1))
    {
      offered, sends, learned, hint, targets := None, [], routes.hints, None, [];
      if frame.Hello? {
        return;
      }
      var isNew := seenIds.Remember(frame.id, seenAt);
      if !isNew {
        return;
      }
      routes.Learn(frame.packet.fromId, source, learnAt);
      learned := routes.hints;
      offered := Some(frame.packet);
      if delivered || frame.hopsLeft == 0 {
        return;
      }
      var forwarded := Relay(frame.id, frame.packet, frame.hopsLeft - 1);
      sends, hint, targets := ForwardToTarget(Some(source), frame.packet.toId, forwarded, lookupAt, open);
    }
  }
}
